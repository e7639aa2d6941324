/**
 The full epoch boundary (crates/ade_ledger/src/rules.rs, the Conway path): apply
 the reward update, build the mark and rotate, reap pools and refund their deposits,
 return governance deposits, and settle reserves and treasury.
 */
module EpochBoundary {
  import opened LedgerTypes
  import opened Rationals
  import opened Sums
  import opened Snapshots
  import opened Certificates
  import opened RewardFormula
  import opened RewardUpdates
  import EpochRewards

  // Step 1: the reward update.

  datatype RewardInputs = RewardInputs(
    reserves: Coin,
    fees: Coin,
    blocks: map<PoolId, U64>,
    go: StakeSnapshot,
    maxSupply: Coin,
    params: ProtocolParams,
    slotsPerEpoch: U64)

  datatype RewardUpdate = RewardUpdate(
    deltaR1: Coin, deltaT1: Coin, pot: Coin, credits: map<Credential, Coin>, sumRewards: Coin)

  /** The view of the pool loop, for a given pot. */
  ghost function ViewOf(i: RewardInputs, pot: Coin): PotView {
    SumBounds(i.blocks);
    PotView(i.go, i.blocks, pot, SatSub(i.maxSupply, i.reserves), EpochRewards.ClampedSum(i.go.poolStakes),
            WrapU64(Sum(i.blocks)), i.params.poolInfluence, i.params.nOpt)
  }

  /** What the reserves release and the treasury takes, and the pot that is left for pools. */
  ghost function Expansion(i: RewardInputs): Coin {
    DeltaR1(i.reserves, i.params, WrapU64(Sum(i.blocks)), i.slotsPerEpoch)
  }

  ghost function TreasuryShare(i: RewardInputs): Coin {
    FloorPart(SatAdd(Expansion(i), i.fees), i.params.treasuryGrowth)
  }

  ghost function PotOf(i: RewardInputs): Coin {
    SatSub(SatAdd(Expansion(i), i.fees), TreasuryShare(i))
  }

  /** The native calculation as a whole. `None`: an earning pool has no frozen parameters. */
  ghost function NativeUpdate(i: RewardInputs): Option<RewardUpdate> {
    var v := ViewOf(i, PotOf(i));
    if v.totalStake == 0 || v.activeStake == 0 || v.pot == 0 then
      Some(RewardUpdate(Expansion(i), TreasuryShare(i), PotOf(i), map[], 0))
    else if Stops(v) then
      None
    else
      Some(RewardUpdate(Expansion(i), TreasuryShare(i), PotOf(i),
                        AllocationOf(v).credits, AllocationOf(v).sumRewards))
  }

  /** Parameters are proportions, totals fit in 64 bits, and the pot is solvent. */
  ghost predicate FeasibleTerms(i: RewardInputs) {
    && 0.0 <= i.params.monetaryExpansion <= 1.0 && 0.0 <= i.params.treasuryGrowth <= 1.0
    && 0.0 <= i.params.poolInfluence
    && Sum(i.go.poolStakes) <= U64_MAX && Sum(i.blocks) <= U64_MAX && i.reserves + i.fees <= U64_MAX
    && (forall p :: p in i.go.poolParams ==> ProportionalMargin(i.go.poolParams[p]))
    && SolventInputs(i)
  }

  /** Nothing circulates, or the excess of active stake over circulation earns less than one lovelace. */
  ghost predicate SolventInputs(i: RewardInputs) {
    SumBounds(i.go.poolStakes);
    i.maxSupply <= i.reserves || Solvent(PotOf(i), i.maxSupply - i.reserves, Sum(i.go.poolStakes))
  }

  /** Active stake within circulation is enough, whatever the pot. */
  lemma WithinCirculationIsSolvent(i: RewardInputs)
    requires Sum(i.go.poolStakes) <= i.maxSupply - i.reserves
    ensures SolventInputs(i)
  {
    hide PotOf;
    SumBounds(i.go.poolStakes);
    if i.reserves < i.maxSupply {
      NoExcess(PotOf(i), i.maxSupply - i.reserves, Sum(i.go.poolStakes));
    }
  }

  lemma NoExcess(pot: nat, totalStake: nat, activeStake: nat)
    requires 0 < totalStake && activeStake <= totalStake
    ensures Solvent(pot, totalStake, activeStake)
  {
    MulMonoInt(activeStake - totalStake, 0, pot);
  }

  /** The stakes of the snapshot being paid are its delegators', besides. */
  ghost predicate FeasibleInputs(i: RewardInputs) {
    PoolStakesAreSums(i.go) && FeasibleTerms(i)
  }

  /** What a sound update promises: it draws what it hands out, and never more than there is. */
  ghost predicate SoundUpdate(reserves: Coin, fees: Coin, u: RewardUpdate) {
    && u.deltaR1 <= reserves
    && u.deltaT1 + u.pot == u.deltaR1 + fees
    && Sum(u.credits) == u.sumRewards <= u.pot
  }

  method WrappingTotal(m: map<PoolId, U64>) returns (total: U64)
    ensures total == WrapU64(Sum(m))
  {
    hide WrapU64;
    total := 0;
    var remaining := m.Keys;
    ghost var done: map<PoolId, int> := map[];
    AllTaken<PoolId, int>(m);
    NothingWraps();
    while remaining != {}
      invariant remaining <= m.Keys && done == m - remaining
      invariant total == WrapU64(Sum(done))
    {
      var k :| k in remaining;
      TakenStep<PoolId, int>(m, remaining, done, k);
      SumUpdate(done, k, m[k]);
      WrapTwice(Sum(done), m[k]);
      total := WrapU64(total + m[k]);
      remaining, done := remaining - {k}, done[k := m[k]];
    }
  }

  lemma NothingWraps()
    ensures WrapU64(0) == 0
  {
  }

  function DeltaR1(reserves: Coin, params: ProtocolParams, blocks: U64, slotsPerEpoch: U64): Coin {
    FloorPart(reserves, Mul(params.monetaryExpansion, Eta(params.decentralization, blocks, slotsPerEpoch)))
  }

  lemma ExpansionWithinReserves(reserves: Coin, params: ProtocolParams, blocks: U64, slotsPerEpoch: U64)
    requires 0.0 <= params.monetaryExpansion <= 1.0
    ensures DeltaR1(reserves, params, blocks, slotsPerEpoch) <= reserves
  {
    var eta := Eta(params.decentralization, blocks, slotsPerEpoch);
    EtaIsProportion(params.decentralization, blocks, slotsPerEpoch);
    hide Eta, FloorPart;
    MulNonNegative(params.monetaryExpansion, eta);
    MulOrder(params.monetaryExpansion, 1.0, eta);
    assert Mul(1.0, eta) == eta;
    FloorPartBounds(reserves, Mul(params.monetaryExpansion, eta));
  }

  /** The native reward calculation, step by step. */
  method ComputeRewardUpdate(i: RewardInputs) returns (r: Option<RewardUpdate>)
    ensures r == NativeUpdate(i)
  {
    hide DeltaR1, FloorPart, AllocationOf, Stops;
    var totalBlocks := WrappingTotal(i.blocks);
    var deltaR1 := DeltaR1(i.reserves, i.params, totalBlocks, i.slotsPerEpoch);
    var totalReward := SatAdd(deltaR1, i.fees);
    var deltaT1 := FloorPart(totalReward, i.params.treasuryGrowth);
    var pot := SatSub(totalReward, deltaT1);
    var activeStake := EpochRewards.SaturatingTotal(i.go.poolStakes);
    var totalStake := SatSub(i.maxSupply, i.reserves);
    var allocation := Allocation(map[], 0);
    if totalStake > 0 && activeStake > 0 && pot > 0 {
      var v := PotView(i.go, i.blocks, pot, totalStake, activeStake, totalBlocks,
                       i.params.poolInfluence, i.params.nOpt);
      assert v == ViewOf(i, pot);
      var outcome := AllocateRewards(v);
      if outcome.None? {
        return None;
      }
      allocation := outcome.value;
    }
    r := Some(RewardUpdate(deltaR1, deltaT1, pot, allocation.credits, allocation.sumRewards));
  }

  /** On feasible inputs it draws what it hands out, and never more than there is. */
  lemma NativeUpdateIsSound(i: RewardInputs)
    requires FeasibleInputs(i) && NativeUpdate(i).Some?
    ensures SoundUpdate(i.reserves, i.fees, NativeUpdate(i).value)
  {
    hide DeltaR1, FloorPart, AllocationOf, Stops, Solvent, PoolStakesAreSums;
    PotsAddUp(i);
    var v := ViewOf(i, PotOf(i));
    if v.totalStake > 0 && v.activeStake > 0 && v.pot > 0 {
      ViewIsFeasible(i);
      AllocationWithinPot(v);
    }
  }

  lemma PotsAddUp(i: RewardInputs)
    requires FeasibleTerms(i)
    ensures Expansion(i) <= i.reserves && TreasuryShare(i) + PotOf(i) == Expansion(i) + i.fees
  {
    hide DeltaR1, FloorPart, SolventInputs;
    ExpansionWithinReserves(i.reserves, i.params, WrapU64(Sum(i.blocks)), i.slotsPerEpoch);
    FloorPartBounds(SatAdd(Expansion(i), i.fees), i.params.treasuryGrowth);
  }

  lemma ViewIsFeasible(i: RewardInputs)
    requires FeasibleInputs(i) && i.reserves < i.maxSupply
    ensures Feasible(ViewOf(i, PotOf(i)))
  {
    hide PotOf, Solvent, PoolStakesAreSums;
    SumBounds(i.blocks);
    SumBounds(i.go.poolStakes);
  }

  // Step 2: crediting accounts.

  /** Each account's credits added up at once, then clamped to 64 bits. */
  ghost function CreditAll<K>(rewards: map<Credential, Coin>, d: map<K, (Credential, Coin)>): map<Credential, Coin> {
    map c | c in rewards.Keys + (set k | k in d :: d[k].0) :: CreditedBalance(rewards, d, c)
  }

  ghost function CreditedBalance<K>(
    rewards: map<Credential, Coin>, d: map<K, (Credential, Coin)>, c: Credential): Coin
  {
    SumBounds(Group(d, c));
    Min(GetOr(rewards, c) + Sum(Group(d, c)), U64_MAX)
  }

  /** Crediting one after another with saturating additions, in any order, comes to the same. */
  method CreditEach<K>(rewards: map<Credential, Coin>, d: map<K, (Credential, Coin)>)
    returns (after: map<Credential, Coin>)
    ensures after == CreditAll(rewards, d)
  {
    hide CreditAll, AddCredit;
    after := rewards;
    var remaining := d.Keys;
    ghost var done: map<K, (Credential, Coin)> := map[];
    NothingCredited(rewards, done);
    while remaining != {}
      invariant remaining <= d.Keys && done == d - remaining
      invariant after == CreditAll(rewards, done)
    {
      var k :| k in remaining;
      remaining := remaining - {k};
      CreditStep(rewards, done, k, d[k].0, d[k].1);
      done := done[k := d[k]];
      after := AddCredit(after, d[k].0, d[k].1);
    }
    assert done == d;
  }

  lemma NothingCredited<K>(rewards: map<Credential, Coin>, d: map<K, (Credential, Coin)>)
    requires d == map[]
    ensures CreditAll(rewards, d) == rewards
  {
    forall c
      ensures Sum(Group(d, c)) == 0
    {
      assert Group(d, c) == map[];
    }
  }

  lemma CreditStep<K>(rewards: map<Credential, Coin>, d: map<K, (Credential, Coin)>, k: K, c: Credential, coin: Coin)
    requires k !in d
    ensures CreditAll(rewards, d[k := (c, coin)]) == AddCredit(CreditAll(rewards, d), c, coin)
  {
    var d' := d[k := (c, coin)];
    var a, b := CreditAll(rewards, d'), AddCredit(CreditAll(rewards, d), c, coin);
    forall x
      ensures x in a <==> x in b
      ensures x in b ==> a[x] == b[x]
    {
      CreditStepAt(rewards, d, k, c, coin, x);
    }
  }

  lemma CreditStepAt<K>(
    rewards: map<Credential, Coin>, d: map<K, (Credential, Coin)>, k: K, c: Credential, coin: Coin, x: Credential)
    requires k !in d
    ensures var a, b := CreditAll(rewards, d[k := (c, coin)]), AddCredit(CreditAll(rewards, d), c, coin);
      (x in a <==> x in b) && (x in b ==> a[x] == b[x])
  {
    var d' := d[k := (c, coin)];
    assert d'[k].0 == c;
    if x in CreditAll(rewards, d) && x !in rewards {
      var j :| j in d && d[j].0 == x;
      assert d'[j].0 == x;
    }
    GroupAfter(d, k, c, coin, x);
  }

  lemma GroupAfter<K>(d: map<K, (Credential, Coin)>, k: K, c: Credential, coin: Coin, x: Credential)
    requires k !in d
    ensures Sum(Group(d[k := (c, coin)], x)) == Sum(Group(d, x)) + if x == c then coin else 0
    ensures (forall j :: j in d ==> d[j].0 != x) ==> Sum(Group(d, x)) == 0
    ensures 0 <= Sum(Group(d, x))
  {
    if x == c {
      assert Group(d[k := (c, coin)], x) == Group(d, x)[k := coin];
      SumUpdate(Group(d, x), k, coin);
    } else {
      assert Group(d[k := (c, coin)], x) == Group(d, x);
    }
    SumBounds(Group(d, x));
    if forall j :: j in d ==> d[j].0 != x {
      assert Group(d, x) == map[];
    }
  }

  /** Without overflow the accounts grow by exactly what is credited. */
  lemma CreditAllTotal<K>(rewards: map<Credential, Coin>, d: map<K, (Credential, Coin)>)
    requires Sum(rewards) + Sum(Amounts(d)) <= U64_MAX
    ensures Sum(CreditAll(rewards, d)) == Sum(rewards) + Sum(Amounts(d))
  {
    hide CreditAll;
    var keys := CreditAll(rewards, d).Keys;
    var balances := map c | c in keys :: GetOr(rewards, c) as int;
    CreditAllKeys(rewards, d);
    SumIgnoresZeros(rewards, balances);
    SumByGroup(d, keys);
    forall c | c in keys
      ensures CreditAll(rewards, d)[c] == balances[c] + GroupSums(d, keys)[c]
    {
      CreditAllAt(rewards, d, c);
    }
    SumPlus(balances, GroupSums(d, keys), CreditAll(rewards, d));
  }

  lemma CreditAllKeys<K>(rewards: map<Credential, Coin>, d: map<K, (Credential, Coin)>)
    ensures rewards.Keys <= CreditAll(rewards, d).Keys
    ensures forall k :: k in d ==> d[k].0 in CreditAll(rewards, d)
  {
  }

  lemma CreditAllAt<K>(rewards: map<Credential, Coin>, d: map<K, (Credential, Coin)>, c: Credential)
    requires Sum(rewards) + Sum(Amounts(d)) <= U64_MAX && c in CreditAll(rewards, d)
    ensures CreditAll(rewards, d)[c] == GetOr(rewards, c) + Sum(Group(d, c))
  {
    SumBounds(rewards);
    GroupWithin(d, c);
  }

  lemma GroupWithin<K>(d: map<K, (Credential, Coin)>, c: Credential)
    ensures 0 <= Sum(Group(d, c)) <= Sum(Amounts(d))
  {
    SumSubset(Group(d, c), Amounts(d));
    SumBounds(Group(d, c));
  }

  function ToRegistered<K>(registered: set<Credential>, d: map<K, (Credential, Coin)>): map<K, (Credential, Coin)> {
    map k | k in d && d[k].0 in registered :: d[k]
  }

  function ToOthers<K>(registered: set<Credential>, d: map<K, (Credential, Coin)>): map<K, Coin> {
    map k | k in d && d[k].0 !in registered :: d[k].1
  }

  /** Amounts for registered accounts reach them; the rest is left for the treasury. */
  lemma DeliveryConserves<K>(rewards: map<Credential, Coin>, registered: set<Credential>, d: map<K, (Credential, Coin)>)
    requires Sum(rewards) + Sum(Amounts(d)) <= U64_MAX
    ensures Sum(CreditAll(rewards, ToRegistered(registered, d))) + EpochRewards.ClampedSum(ToOthers(registered, d))
         == Sum(rewards) + Sum(Amounts(d))
  {
    SplitAmounts(registered, d);
    hide CreditAll, ToRegistered, ToOthers;
    SumBounds(ToOthers(registered, d));
    SumBounds(Amounts(ToRegistered(registered, d)));
    SumBounds(rewards);
    CreditAllTotal(rewards, ToRegistered(registered, d));
  }

  lemma SplitAmounts<K>(registered: set<Credential>, d: map<K, (Credential, Coin)>)
    ensures Sum(Amounts(d)) == Sum(Amounts(ToRegistered(registered, d))) + Sum(ToOthers(registered, d))
  {
    var ins, outs := Amounts(ToRegistered(registered, d)), ToOthers(registered, d);
    SumOfParts(ins, Amounts(d));
    assert Amounts(d) - ins.Keys == outs;
  }

  // Step 3: the whole boundary.

  datatype EpochState = EpochState(
    epoch: U64,
    slot: U64,
    snapshots: Option<SnapshotState>,
    reserves: Coin,
    treasury: Coin,
    blockProduction: map<PoolId, U64>,
    epochFees: Coin,
    donationPot: Coin)

  /** How governance returns a proposal's deposit. */
  datatype DepositReturn =
    | ToRewardAccount(credential: Credential, amount: Coin)
    | ToTreasury(amount: Coin)
    | NoDeposit

  function ReturnToAccounts(rewards: map<Credential, Coin>, givebacks: seq<DepositReturn>): map<Credential, Coin> {
    if givebacks == [] then
      rewards
    else
      var before := ReturnToAccounts(rewards, givebacks[..|givebacks| - 1]);
      match givebacks[|givebacks| - 1]
      case ToRewardAccount(c, amount) => AddCredit(before, c, amount)
      case _ => before
  }

  function ReturnToTreasury(givebacks: seq<DepositReturn>): Coin {
    if givebacks == [] then
      0
    else
      var before := ReturnToTreasury(givebacks[..|givebacks| - 1]);
      match givebacks[|givebacks| - 1]
      case ToTreasury(amount) => SatAdd(before, amount)
      case _ => before
  }

  function ReturnedAmount(r: DepositReturn): nat {
    if r.NoDeposit? then 0 else r.amount
  }

  function TotalReturned(givebacks: seq<DepositReturn>): nat {
    if givebacks == [] then
      0
    else
      TotalReturned(givebacks[..|givebacks| - 1]) + ReturnedAmount(givebacks[|givebacks| - 1])
  }

  lemma {:induction false} ReturnsConserve(rewards: map<Credential, Coin>, givebacks: seq<DepositReturn>)
    requires Sum(rewards) + TotalReturned(givebacks) <= U64_MAX
    ensures Sum(ReturnToAccounts(rewards, givebacks)) + ReturnToTreasury(givebacks)
         == Sum(rewards) + TotalReturned(givebacks)
  {
    SumBounds(rewards);
    if givebacks != [] {
      var n := |givebacks| - 1;
      ReturnsConserve(rewards, givebacks[..n]);
      var before := ReturnToAccounts(rewards, givebacks[..n]);
      SumBounds(before);
      if givebacks[n].ToRewardAccount? {
        AddCreditExact(before, givebacks[n].credential, givebacks[n].amount);
      }
    }
  }

  /** The deposits of the pools reaped at `epoch`, each for its own reward account. */
  function Refunds(s: CertState, epoch: U64, deposit: Coin): map<PoolId, (Credential, Coin)> {
    var pools := Adopt(s).pool.pools;
    map p | p in DuePools(s, epoch) && p in pools && RewardAccountCredential(pools[p].rewardAccount).Some? ::
      (RewardAccountCredential(pools[p].rewardAccount).value, deposit)
  }

  function AsTargets(credits: map<Credential, Coin>): map<Credential, (Credential, Coin)> {
    map c | c in credits :: (c, credits[c])
  }

  datatype BoundaryInput = BoundaryInput(
    epochState: EpochState,
    certState: CertState,
    base: map<Credential, Coin>,
    update: RewardUpdate,
    givebacks: seq<DepositReturn>,
    params: ProtocolParams,
    enacted: Option<ProtocolParams>)

  datatype BoundaryOutput = BoundaryOutput(epochState: EpochState, certState: CertState, params: ProtocolParams)

  /** Enacted parameters replace the held ones; otherwise those carry forward. */
  function ParamsAfter(held: ProtocolParams, enacted: Option<ProtocolParams>): ProtocolParams {
    if enacted.Some? then enacted.value else held
  }

  datatype BoundaryError = FullBoundaryStateRequired | TreasuryOverflow

  ghost function RewardsAfterUpdate(i: BoundaryInput): map<Credential, Coin> {
    var d := i.certState.delegation;
    CreditAll(d.rewards, ToRegistered(d.registrations.Keys, AsTargets(i.update.credits)))
  }

  ghost function RewardsAfterReap(i: BoundaryInput, target: U64): map<Credential, Coin> {
    var refunds := Refunds(i.certState, target, i.params.poolDeposit);
    CreditAll(RewardsAfterUpdate(i), ToRegistered(i.certState.delegation.registrations.Keys, refunds))
  }

  /** Four saturating additions in a row clamp once. */
  ghost function TreasuryBeforeDonations(i: BoundaryInput, target: U64): Coin {
    var registered := i.certState.delegation.registrations.Keys;
    var deltaT2 := EpochRewards.ClampedSum(ToOthers(registered, AsTargets(i.update.credits)));
    var unclaimed := EpochRewards.ClampedSum(ToOthers(registered, Refunds(i.certState, target, i.params.poolDeposit)));
    Min(i.epochState.treasury + i.update.deltaT1 + deltaT2 + unclaimed + ReturnToTreasury(i.givebacks), U64_MAX)
  }

  function ReservesAfter(reserves: Coin, u: RewardUpdate): Coin {
    SatAdd(SatSub(reserves, u.deltaR1), SatSub(u.pot, u.sumRewards))
  }

  ghost function Boundary(i: BoundaryInput, target: U64): Result<BoundaryOutput, BoundaryError> {
    var es, treasury := i.epochState, TreasuryBeforeDonations(i, target);
    if es.snapshots.None? then
      Err(FullBoundaryStateRequired)
    else if CheckedAdd(treasury, es.donationPot).None? then
      Err(TreasuryOverflow)
    else
      var mark := MarkSpec(i.base, RewardsAfterUpdate(i), i.certState.delegation.delegations, i.certState.pool.pools);
      Ok(BoundaryOutput(
        EpochState(target, es.slot, Some(Rotate(es.snapshots.value, mark)),
                   ReservesAfter(es.reserves, i.update), treasury + es.donationPot, map[], 0, 0),
        WithRewards(Reap(i.certState, target), ReturnToAccounts(RewardsAfterReap(i, target), i.givebacks)),
        ParamsAfter(i.params, i.enacted)))
  }

  /** The lovelace a state's pots and accounts hold. */
  ghost function Ada(es: EpochState, s: CertState, fees: int): int {
    es.reserves + es.treasury + es.donationPot + fees + Sum(s.delegation.rewards)
  }

  /** What flows in: governance deposits returned, and the deposits of reaped pools. */
  ghost function Inflow(i: BoundaryInput, target: U64): int {
    TotalReturned(i.givebacks) + Sum(Amounts(Refunds(i.certState, target, i.params.poolDeposit)))
  }

  ghost predicate Fits(i: BoundaryInput, target: U64, fees: Coin) {
    Ada(i.epochState, i.certState, fees) + Inflow(i, target) <= U64_MAX
  }

  ghost predicate Conserves(i: BoundaryInput, target: U64, fees: Coin, out: BoundaryOutput) {
    Ada(out.epochState, out.certState, 0) == Ada(i.epochState, i.certState, fees) + Inflow(i, target)
  }

  lemma AccountsConserve(i: BoundaryInput, target: U64)
    requires Sum(i.certState.delegation.rewards) + Sum(i.update.credits) + Inflow(i, target) <= U64_MAX
    ensures var registered := i.certState.delegation.registrations.Keys;
      Sum(ReturnToAccounts(RewardsAfterReap(i, target), i.givebacks))
        + EpochRewards.ClampedSum(ToOthers(registered, AsTargets(i.update.credits)))
        + EpochRewards.ClampedSum(ToOthers(registered, Refunds(i.certState, target, i.params.poolDeposit)))
        + ReturnToTreasury(i.givebacks)
      == Sum(i.certState.delegation.rewards) + Sum(i.update.credits) + Inflow(i, target)
  {
    var d, refunds := i.certState.delegation, Refunds(i.certState, target, i.params.poolDeposit);
    var registered := d.registrations.Keys;
    assert Amounts(AsTargets(i.update.credits)) == i.update.credits;
    hide CreditAll, ToRegistered, ToOthers, Refunds, AsTargets;
    SumBounds(Amounts(refunds));
    SumBounds(ToOthers(registered, AsTargets(i.update.credits)));
    SumBounds(ToOthers(registered, refunds));
    DeliveryConserves(d.rewards, registered, AsTargets(i.update.credits));
    DeliveryConserves(RewardsAfterUpdate(i), registered, refunds);
    ReturnsConserve(RewardsAfterReap(i, target), i.givebacks);
  }

  /**
   Ada is conserved across the boundary: whatever the sound reward update, the base
   stake, the reaped pools and the governance returns, reserves, treasury, donations,
   the fees drawn and the reward accounts add up to the same before and after, plus
   the deposits that flow back. Nothing clamps, and the boundary is accepted.
   */
  lemma BoundaryConservesAda(i: BoundaryInput, target: U64, fees: Coin)
    requires i.epochState.snapshots.Some?
    requires SoundUpdate(i.epochState.reserves, fees, i.update)
    requires Fits(i, target, fees)
    ensures Boundary(i, target).Ok? && Conserves(i, target, fees, Boundary(i, target).value)
  {
    hide ReturnToAccounts, ReturnToTreasury, RewardsAfterReap, RewardsAfterUpdate;
    hide ToOthers, Refunds, AsTargets, MarkSpec;
    SumBounds(i.certState.delegation.rewards);
    SumBounds(Amounts(Refunds(i.certState, target, i.params.poolDeposit)));
    AccountsConserve(i, target);
    SumBounds(ReturnToAccounts(RewardsAfterReap(i, target), i.givebacks));
  }

  method ReturnDeposits(rewards: map<Credential, Coin>, givebacks: seq<DepositReturn>)
    returns (after: map<Credential, Coin>, toTreasury: Coin)
    ensures after == ReturnToAccounts(rewards, givebacks) && toTreasury == ReturnToTreasury(givebacks)
  {
    after, toTreasury := rewards, 0;
    var n := 0;
    while n < |givebacks|
      invariant 0 <= n <= |givebacks|
      invariant after == ReturnToAccounts(rewards, givebacks[..n])
      invariant toTreasury == ReturnToTreasury(givebacks[..n])
    {
      assert givebacks[..n + 1][..n] == givebacks[..n];
      match givebacks[n] {
        case ToRewardAccount(c, amount) => after := AddCredit(after, c, amount);
        case ToTreasury(amount) => toTreasury := SatAdd(toTreasury, amount);
        case NoDeposit =>
      }
      n := n + 1;
    }
    assert givebacks[..n] == givebacks;
  }

  /** The boundary as the source runs it: one loop a step. */
  method ApplyBoundary(i: BoundaryInput, target: U64) returns (r: Result<BoundaryOutput, BoundaryError>)
    ensures r == Boundary(i, target)
  {
    hide CreditAll, MarkSpec, Reap, ToRegistered, ToOthers, Refunds, ReturnToAccounts, ReturnToTreasury;
    var es, cs := i.epochState, i.certState;
    if es.snapshots.None? {
      return Err(FullBoundaryStateRequired);
    }
    var registered := cs.delegation.registrations.Keys;
    var credits := AsTargets(i.update.credits);
    var rewards := CreditEach(cs.delegation.rewards, ToRegistered(registered, credits));
    var deltaT2 := EpochRewards.SaturatingTotal(ToOthers(registered, credits));
    var mark := BuildMark(i.base, rewards, cs.delegation.delegations, cs.pool.pools);
    var refunds := Refunds(cs, target, i.params.poolDeposit);
    rewards := CreditEach(rewards, ToRegistered(registered, refunds));
    var unclaimed := EpochRewards.SaturatingTotal(ToOthers(registered, refunds));
    var toTreasury;
    rewards, toTreasury := ReturnDeposits(rewards, i.givebacks);
    var treasury := SatAdd(SatAdd(SatAdd(SatAdd(es.treasury, i.update.deltaT1), deltaT2), unclaimed), toTreasury);
    match CheckedAdd(treasury, es.donationPot) {
      case None => return Err(TreasuryOverflow);
      case Some(total) =>
        return Ok(BoundaryOutput(
          EpochState(target, es.slot, Some(Rotate(es.snapshots.value, mark)),
                     ReservesAfter(es.reserves, i.update), total, map[], 0, 0),
          WithRewards(Reap(cs, target), rewards),
          ParamsAfter(i.params, i.enacted)));
    }
  }

  /**
   `apply_epoch_boundary_with_registrations`: the native reward calculation over the
   fed counts and fees, then the boundary. On feasible inputs it creates and destroys
   no ada.
   */
  method RunBoundary(
    es: EpochState, cs: CertState, base: map<Credential, Coin>, givebacks: seq<DepositReturn>,
    params: ProtocolParams, enacted: Option<ProtocolParams>, maxSupply: Coin, slotsPerEpoch: U64, target: U64)
    returns (r: Option<Result<BoundaryOutput, BoundaryError>>, update: RewardUpdate)
    ensures es.snapshots.Some? ==>
              var fed := RewardInputs(es.reserves, es.epochFees, es.blockProduction, es.snapshots.value.go,
                                      maxSupply, params, slotsPerEpoch);
              var i := BoundaryInput(es, cs, base, update, givebacks, params, enacted);
              && (r.Some? <==> NativeUpdate(fed).Some?)
              && (r.Some? ==> NativeUpdate(fed) == Some(update) && r.value == Boundary(i, target))
              && (r.Some? && Fits(i, target, es.epochFees) && FeasibleInputs(fed) ==>
                    r.value.Ok? && Conserves(i, target, es.epochFees, r.value.value))
    ensures es.snapshots.None? ==> r == Some(Err(FullBoundaryStateRequired))
  {
    update := RewardUpdate(0, 0, 0, map[], 0);
    if es.snapshots.None? {
      return Some(Err(FullBoundaryStateRequired)), update;
    }
    var fed := RewardInputs(es.reserves, es.epochFees, es.blockProduction, es.snapshots.value.go,
                            maxSupply, params, slotsPerEpoch);
    var u := ComputeRewardUpdate(fed);
    if u.None? {
      return None, update;
    }
    update := u.value;
    hide Boundary, FeasibleInputs, Fits, Conserves, NativeUpdate, SoundUpdate;
    var i := BoundaryInput(es, cs, base, update, givebacks, params, enacted);
    var out := ApplyBoundary(i, target);
    r := Some(out);
    if FeasibleInputs(fed) && Fits(i, target, es.epochFees) {
      NativeUpdateIsSound(fed);
      BoundaryConservesAda(i, target, es.epochFees);
    }
  }
}
