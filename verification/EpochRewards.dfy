/**
 Reward computation and the epoch-boundary orchestration of
 crates/ade_ledger/src/epoch.rs: floors, operator margin, dust and reserves.
 */
module EpochRewards {
  import opened LedgerTypes
  import opened Rationals
  import opened Sums
  import opened Snapshots

  datatype PoolRewards = PoolRewards(operator: Coin, members: map<Credential, Coin>)

  datatype RewardParams = RewardParams(cost: Coin, margin: Rational)

  datatype PoolRetirement = PoolRetirement(pool: PoolId, epoch: U64)

  /** What a pool is owed: its stake's share of the total reward, rounded down. */
  function Entitlement(totalReward: Coin, poolStake: Coin, totalStake: Coin): nat {
    if totalStake == 0 then 0 else MulDiv(totalReward, poolStake, totalStake)
  }

  /** A pool whose stake is its delegators' and part of the total, with a margin that is a proportion. */
  ghost predicate SoundPool(poolStake: Coin, totalStake: Coin, margin: Rational, delegators: map<Credential, Coin>) {
    && poolStake <= totalStake
    && 0.0 <= margin <= 1.0
    && poolStake == Sum(delegators)
  }

  function PositiveShares(pot: Coin, poolStake: Coin, delegators: map<Credential, Coin>): map<Credential, Coin>
    requires poolStake > 0
  {
    map c | c in delegators && FloorShare(pot, delegators[c], poolStake) > 0 ::
      FloorShare(pot, delegators[c], poolStake)
  }

  lemma PositiveSharesStep(
    pot: Coin, poolStake: Coin, done: map<Credential, Coin>, c: Credential, stake: Coin)
    requires poolStake > 0 && c !in done
    ensures var before, share := PositiveShares(pot, poolStake, done), FloorShare(pot, stake, poolStake);
      && PositiveShares(pot, poolStake, done[c := stake]) == (if share > 0 then before[c := share] else before)
      && c !in before
  {
  }

  lemma NoShares(pot: Coin, poolStake: Coin)
    requires poolStake > 0
    ensures PositiveShares(pot, poolStake, map[]) == map[]
  {
  }

  /** The inner loop over a pool's delegators, in any order. */
  method DistributeToMembers(pot: Coin, poolStake: Coin, delegators: map<Credential, Coin>)
    returns (members: map<Credential, Coin>, distributed: Coin)
    requires poolStake > 0
    ensures members == PositiveShares(pot, poolStake, delegators)
    ensures distributed == Min(Sum(members), U64_MAX)
  {
    hide PositiveShares, FloorShare;
    NoShares(pot, poolStake);
    members, distributed := map[], 0;
    var remaining := delegators.Keys;
    ghost var done: map<Credential, Coin> := map[];
    while remaining != {}
      invariant remaining <= delegators.Keys
      invariant done == delegators - remaining
      invariant members == PositiveShares(pot, poolStake, done)
      invariant distributed == Min(Sum(members), U64_MAX)
    {
      var c :| c in remaining;
      PositiveSharesStep(pot, poolStake, done, c, delegators[c]);
      TakenStep(delegators, remaining, done, c);
      remaining, done := remaining - {c}, done[c := delegators[c]];
      var share := FloorShare(pot, delegators[c], poolStake);
      if share > 0 {
        SumUpdate(members, c, share);
        distributed := SatAdd(distributed, share);
        members := members[c := share];
      }
    }
    assert done == delegators;
  }

  /** How a pool's reward is split, with the members' part summed before it is clamped. */
  ghost function PoolReward(
    totalReward: Coin, poolStake: Coin, totalStake: Coin, cost: Coin, margin: Rational,
    delegators: map<Credential, Coin>): PoolRewards
  {
    if totalStake == 0 then
      PoolRewards(0, map[])
    else
      var raw := FloorShare(totalReward, poolStake, totalStake);
      if raw <= cost then PoolRewards(raw, map[]) else SplitReward(raw, cost, margin, poolStake, delegators)
  }

  ghost function SplitReward(
    raw: Coin, cost: Coin, margin: Rational, poolStake: Coin, delegators: map<Credential, Coin>): PoolRewards
    requires cost < raw
  {
    var marginCoin := FloorPart(raw - cost, margin);
    var pot := SatSub(raw - cost, marginCoin);
    var members := if poolStake > 0 && pot > 0 then PositiveShares(pot, poolStake, delegators) else map[];
    var dust := SatSub(pot, ClampedSum(members));
    PoolRewards(SatAdd(SatAdd(cost, marginCoin), dust), members)
  }

  ghost function ClampedSum<K>(m: map<K, Coin>): Coin {
    SumBounds(m);
    Min(Sum(m), U64_MAX)
  }

  /**
   `compute_pool_reward`. The source's option is never empty: the rationals are
   unbounded and both denominators are checked before they are used.
   */
  method ComputePoolReward(
    totalReward: Coin, poolStake: Coin, totalStake: Coin, cost: Coin, margin: Rational,
    delegators: map<Credential, Coin>)
    returns (r: PoolRewards)
    ensures r == PoolReward(totalReward, poolStake, totalStake, cost, margin, delegators)
  {
    if totalStake == 0 {
      return PoolRewards(0, map[]);
    }
    var raw := FloorShare(totalReward, poolStake, totalStake);
    if raw <= cost {
      return PoolRewards(raw, map[]);
    }
    var afterCost := SatSub(raw, cost);
    var marginCoin := FloorPart(afterCost, margin);
    var operator := SatAdd(cost, marginCoin);
    var pot := SatSub(afterCost, marginCoin);
    var members: map<Credential, Coin>, distributed := map[], 0;
    if poolStake > 0 && pot > 0 {
      members, distributed := DistributeToMembers(pot, poolStake, delegators);
    }
    var dust := SatSub(pot, distributed);
    r := PoolRewards(SatAdd(operator, dust), members);
  }

  /** Nothing is lost and nothing made up: a pool pays out exactly what it is owed. */
  lemma PoolPaysWhatItIsOwed(
    totalReward: Coin, poolStake: Coin, totalStake: Coin, cost: Coin, margin: Rational,
    delegators: map<Credential, Coin>)
    requires SoundPool(poolStake, totalStake, margin, delegators)
    ensures var r := PoolReward(totalReward, poolStake, totalStake, cost, margin, delegators);
      r.operator + Sum(r.members) == Entitlement(totalReward, poolStake, totalStake)
  {
    if totalStake > 0 {
      FloorShareIsExact(totalReward, poolStake, totalStake);
      var raw := FloorShare(totalReward, poolStake, totalStake);
      if cost < raw {
        SplitPaysAll(raw, cost, margin, poolStake, delegators);
      }
    }
  }

  lemma SplitPaysAll(
    raw: Coin, cost: Coin, margin: Rational, poolStake: Coin, delegators: map<Credential, Coin>)
    requires cost < raw && 0.0 <= margin <= 1.0 && poolStake == Sum(delegators)
    ensures var r := SplitReward(raw, cost, margin, poolStake, delegators);
      r.operator + Sum(r.members) == raw
  {
    FloorPartBounds(raw - cost, margin);
    var pot := SatSub(raw - cost, FloorPart(raw - cost, margin));
    if poolStake > 0 && pot > 0 {
      MembersShareThePot(pot, poolStake, delegators);
    }
  }

  /**
   When a pool pays members, each gets the floor of its share of what cost and
   margin leave, and the dust the operator keeps is less than one lovelace a delegator.
   */
  lemma MembersAndDust(
    raw: Coin, cost: Coin, margin: Rational, poolStake: Coin, delegators: map<Credential, Coin>)
    requires cost < raw && 0.0 <= margin <= 1.0 && poolStake == Sum(delegators)
    requires SplitReward(raw, cost, margin, poolStake, delegators).members != map[]
    ensures var r := SplitReward(raw, cost, margin, poolStake, delegators);
      var marginCoin := FloorPart(raw - cost, margin);
      && (forall c :: c in r.members ==>
            c in delegators && r.members[c] == MulDiv(raw - cost - marginCoin, delegators[c], poolStake))
      && 0 <= r.operator - cost - marginCoin < |delegators|
  {
    FloorPartBounds(raw - cost, margin);
    var pot := SatSub(raw - cost, FloorPart(raw - cost, margin));
    MembersShareThePot(pot, poolStake, delegators);
  }

  function Floors(pot: Coin, poolStake: Coin, delegators: map<Credential, Coin>): map<Credential, int>
    requires poolStake > 0
  {
    map c | c in delegators :: MulDiv(pot, delegators[c], poolStake)
  }

  lemma PaidAreFloors(pot: Coin, poolStake: Coin, delegators: map<Credential, Coin>)
    requires poolStake > 0 && poolStake == Sum(delegators)
    ensures var paid := PositiveShares(pot, poolStake, delegators);
      && Sum(paid) == Sum(Floors(pot, poolStake, delegators))
      && (forall c :: c in paid ==> paid[c] == MulDiv(pot, delegators[c], poolStake))
  {
    SumBounds(delegators);
    forall c | c in delegators
      ensures FloorShare(pot, delegators[c], poolStake) == MulDiv(pot, delegators[c], poolStake)
    {
      FloorShareIsExact(pot, delegators[c], poolStake);
    }
    SumIgnoresZeros(PositiveShares(pot, poolStake, delegators), Floors(pot, poolStake, delegators));
  }

  /** Members get exactly the floors of their shares; together they fall short of the pot by less than one each. */
  lemma MembersShareThePot(pot: Coin, poolStake: Coin, delegators: map<Credential, Coin>)
    requires poolStake > 0 && poolStake == Sum(delegators)
    ensures var paid := PositiveShares(pot, poolStake, delegators);
      && (forall c :: c in paid ==> paid[c] == MulDiv(pot, delegators[c], poolStake))
      && Sum(paid) <= pot < Sum(paid) + |delegators|
  {
    PaidAreFloors(pot, poolStake, delegators);
    FloorsFallShort(pot, poolStake, delegators);
    if delegators == map[] {
      assert false;
    }
    ShortfallBelowCount(pot, Sum(Floors(pot, poolStake, delegators)), poolStake, |delegators|);
  }

  lemma ShortfallBelowCount(pot: int, paid: int, stake: int, count: int)
    requires 0 < stake && 0 < count
    requires stake * paid <= pot * stake <= stake * paid + (stake - 1) * count
    ensures paid <= pot < paid + count
  {
    CancelFactor(paid, pot, stake);
    assert (stake - 1) * count == stake * count - count;
    Distribute(stake, paid, count);
    CancelFactor(pot, paid + count, stake);
  }

  function Remainders(pot: Coin, stake: Coin, delegators: map<Credential, Coin>): map<Credential, int>
    requires stake > 0
  {
    map c | c in delegators :: pot * delegators[c] % stake
  }

  /** Each floor loses less than one whole share. */
  lemma FloorsFallShort(pot: Coin, stake: Coin, delegators: map<Credential, Coin>)
    requires stake > 0
    ensures var floors := Floors(pot, stake, delegators);
      stake * Sum(floors) <= pot * Sum(delegators) <= stake * Sum(floors) + (stake - 1) * |delegators|
  {
    hide MulDiv;
    var floors, rems := Floors(pot, stake, delegators), Remainders(pot, stake, delegators);
    SumScaled(pot, delegators);
    SumScaled(stake, floors);
    assert Sum(Scaled(pot, delegators)) == Sum(Scaled(stake, floors)) + Sum(rems) by {
      DivisionMap(pot, stake, delegators);
      SumPlus(Scaled(stake, floors), rems, Scaled(pot, delegators));
    }
    RemaindersBound(pot, stake, delegators);
  }

  lemma RemaindersBound(pot: Coin, stake: Coin, delegators: map<Credential, Coin>)
    requires stake > 0
    ensures 0 <= Sum(Remainders(pot, stake, delegators)) <= (stake - 1) * |delegators|
  {
    var rems := Remainders(pot, stake, delegators);
    DivisionMap(pot, stake, delegators);
    assert rems.Keys == delegators.Keys;
    SumBounds(rems);
    SumAtMost(rems, stake - 1);
  }

  lemma DivisionMap(pot: Coin, stake: Coin, delegators: map<Credential, Coin>)
    requires stake > 0
    ensures var floors, rems := Floors(pot, stake, delegators), Remainders(pot, stake, delegators);
      && (forall c :: c in delegators ==> Scaled(pot, delegators)[c] == Scaled(stake, floors)[c] + rems[c])
      && (forall c :: c in rems ==> 0 <= rems[c] <= stake - 1)
  {
    forall c | c in delegators
      ensures Scaled(pot, delegators)[c]
           == Scaled(stake, Floors(pot, stake, delegators))[c] + Remainders(pot, stake, delegators)[c]
      ensures 0 <= Remainders(pot, stake, delegators)[c] <= stake - 1
    {
      DivisionWithRemainder(pot * delegators[c], stake);
    }
  }

  lemma DivisionWithRemainder(n: int, c: int)
    requires c > 0
    ensures n == c * (n / c) + n % c && 0 <= n % c <= c - 1
  {
  }

  // All pools of a snapshot.

  ghost function PoolRewardIn(
    totalReward: Coin, totalStake: Coin, go: StakeSnapshot, params: map<PoolId, RewardParams>, p: PoolId): PoolRewards
    requires p in go.poolStakes && p in params
  {
    PoolReward(totalReward, go.poolStakes[p], totalStake, params[p].cost, params[p].margin, Delegators(go, p))
  }

  /** Registered pools are rewarded; a pool without parameters is skipped. */
  ghost function AllRewards(
    totalReward: Coin, totalStake: Coin, go: StakeSnapshot, params: map<PoolId, RewardParams>,
    pools: set<PoolId>): map<PoolId, PoolRewards>
    requires pools <= go.poolStakes.Keys
  {
    map p | p in pools && p in params :: PoolRewardIn(totalReward, totalStake, go, params, p)
  }

  method ComputeRewards(totalReward: Coin, totalStake: Coin, go: StakeSnapshot, params: map<PoolId, RewardParams>)
    returns (rewards: map<PoolId, PoolRewards>)
    ensures rewards == AllRewards(totalReward, totalStake, go, params, go.poolStakes.Keys)
  {
    rewards := map[];
    var remaining := go.poolStakes.Keys;
    while remaining != {}
      invariant remaining <= go.poolStakes.Keys
      invariant rewards == AllRewards(totalReward, totalStake, go, params, go.poolStakes.Keys - remaining)
    {
      var p :| p in remaining;
      ghost var done := go.poolStakes.Keys - remaining;
      remaining := remaining - {p};
      assert go.poolStakes.Keys - remaining == done + {p};
      if p in params {
        var r := ComputePoolReward(
          totalReward, go.poolStakes[p], totalStake, params[p].cost, params[p].margin, Delegators(go, p));
        rewards := rewards[p := r];
      }
    }
  }

  /** A loop adding up a map's values with saturating additions, in any order. */
  method SaturatingTotal<K>(m: map<K, Coin>) returns (total: Coin)
    ensures total == ClampedSum(m)
  {
    total := 0;
    var remaining := m.Keys;
    ghost var done: map<K, int> := map[];
    while remaining != {}
      invariant remaining <= m.Keys
      invariant done == m - remaining
      invariant total == Min(Sum(done), U64_MAX)
    {
      var k :| k in remaining;
      remaining := remaining - {k};
      assert done[k := m[k]] == m - remaining;
      SumUpdate(done, k, m[k]);
      done := done[k := m[k]];
      total := SatAdd(total, m[k]);
    }
    assert done == m;
  }

  /** What one pool's rewards add up to. */
  ghost function Paid(r: PoolRewards): nat {
    SumBounds(r.members);
    r.operator + Sum(r.members)
  }

  ghost function PaidByPool(rewards: map<PoolId, PoolRewards>): map<PoolId, int> {
    map p | p in rewards :: Paid(rewards[p])
  }

  ghost function Distributed(rewards: map<PoolId, PoolRewards>): nat {
    SumBounds(PaidByPool(rewards));
    Sum(PaidByPool(rewards))
  }

  /** `sum_distributed_rewards`: a saturating total over pools and their members. */
  method SumDistributed(rewards: map<PoolId, PoolRewards>) returns (total: Coin)
    ensures total == Min(Distributed(rewards), U64_MAX)
  {
    total := 0;
    var remaining := rewards.Keys;
    ghost var done: map<PoolId, int> := map[];
    while remaining != {}
      invariant remaining <= rewards.Keys
      invariant done == PaidByPool(rewards) - remaining
      invariant total == Min(Sum(done), U64_MAX)
    {
      var p :| p in remaining;
      remaining := remaining - {p};
      assert done[p := Paid(rewards[p])] == PaidByPool(rewards) - remaining;
      SumUpdate(done, p, Paid(rewards[p]));
      done := done[p := Paid(rewards[p])];
      var members := SaturatingTotal(rewards[p].members);
      total := SatAdd(SatAdd(total, rewards[p].operator), members);
    }
    assert done == PaidByPool(rewards);
  }

  // The boundary.

  datatype BoundaryResult = BoundaryResult(
    snapshots: SnapshotState,
    rewards: map<PoolId, PoolRewards>,
    poolParams: map<PoolId, RewardParams>,
    retired: set<PoolId>,
    newReserves: Coin,
    totalReward: Coin)

  function DuePools(retirements: seq<PoolRetirement>, epoch: U64): set<PoolId> {
    set r | r in retirements && r.epoch <= epoch :: r.pool
  }

  /** Margins are proportions, and the snapshot's stakes are its delegators' and fit in 64 bits. */
  ghost predicate SoundInputs(go: StakeSnapshot, params: map<PoolId, RewardParams>) {
    && PoolStakesAreSums(go)
    && Sum(go.poolStakes) <= U64_MAX
    && (forall p :: p in params ==> 0.0 <= params[p].margin <= 1.0)
  }

  /** The rewards of all pools together never exceed the total being shared. */
  lemma RewardsWithinTotal(totalReward: Coin, go: StakeSnapshot, params: map<PoolId, RewardParams>)
    requires SoundInputs(go, params)
    ensures Distributed(AllRewards(totalReward, ClampedSum(go.poolStakes), go, params, go.poolStakes.Keys))
         <= totalReward
  {
    SumBounds(go.poolStakes);
    var totalStake := ClampedSum(go.poolStakes);
    hide PoolRewardIn;
    var rewards := AllRewards(totalReward, totalStake, go, params, go.poolStakes.Keys);
    if totalStake == 0 {
      NothingStaked(totalReward, go, params);
    } else {
      var paid := PaidByPool(rewards);
      var shares := map p | p in rewards :: go.poolStakes[p] as int;
      forall p | p in paid
        ensures Scaled(totalStake, paid)[p] <= Scaled(totalReward, shares)[p]
      {
        PoolWithinShare(totalReward, totalStake, go, params, p);
      }
      WithinTotal(totalReward, totalStake, paid, shares, go.poolStakes);
    }
  }

  lemma PoolWithinShare(
    totalReward: Coin, totalStake: Coin, go: StakeSnapshot, params: map<PoolId, RewardParams>, p: PoolId)
    requires SoundInputs(go, params) && p in go.poolStakes && p in params
    requires totalStake == Sum(go.poolStakes) > 0
    ensures totalStake * Paid(PoolRewardIn(totalReward, totalStake, go, params, p)) <= totalReward * go.poolStakes[p]
  {
    SumBounds(go.poolStakes);
    hide PoolReward, MulDiv;
    PoolPaysWhatItIsOwed(totalReward, go.poolStakes[p], totalStake, params[p].cost, params[p].margin,
                         Delegators(go, p));
    MulDivBounds(totalReward, go.poolStakes[p], totalStake,
                 Paid(PoolRewardIn(totalReward, totalStake, go, params, p)));
  }

  lemma NothingStaked(totalReward: Coin, go: StakeSnapshot, params: map<PoolId, RewardParams>)
    ensures Distributed(AllRewards(totalReward, 0, go, params, go.poolStakes.Keys)) == 0
  {
    var paid := PaidByPool(AllRewards(totalReward, 0, go, params, go.poolStakes.Keys));
    forall p | p in paid
      ensures paid[p] == 0
    {
    }
    var none: map<PoolId, int> := map[];
    SumIgnoresZeros(none, paid);
  }

  lemma WithinTotal(
    reward: Coin, stake: Coin, paid: map<PoolId, int>, shares: map<PoolId, int>, all: map<PoolId, int>)
    requires stake > 0 && stake == Sum(all)
    requires paid.Keys == shares.Keys <= all.Keys
    requires forall p :: p in shares ==> shares[p] == all[p]
    requires forall p :: p in all ==> 0 <= all[p]
    requires forall p :: p in paid ==> Scaled(stake, paid)[p] <= Scaled(reward, shares)[p]
    ensures Sum(paid) <= reward
  {
    hide Scaled;
    SumScaledLe(stake, paid, reward, shares);
    SumSubset(shares, all);
    AtMostAll(Sum(paid), reward, Sum(shares), stake);
  }

  lemma AtMostAll(paid: int, reward: int, share: int, stake: int)
    requires 0 < stake && 0 <= reward && share <= stake
    requires stake * paid <= reward * share
    ensures paid <= reward
  {
    assert reward * share <= reward * stake;
    CancelFactor(paid, reward, stake);
  }

  /**
   `apply_epoch_boundary` on authoritative snapshots: rotate, reward from the rotated go
   snapshot at the fixed 3/1000 expansion, retire, and take what was paid out of the reserves.
   */
  method ApplyEpochBoundary(
    reserves: Coin, snapshots: SnapshotState, newEpoch: U64, newMark: StakeSnapshot,
    params: map<PoolId, RewardParams>, retirements: seq<PoolRetirement>)
    returns (r: BoundaryResult)
    ensures forall p :: p in r.retired <==>
              exists k :: 0 <= k < |retirements| && retirements[k].pool == p && retirements[k].epoch <= newEpoch
    ensures r.poolParams == params - r.retired
    // The new mark comes in, the mark becomes the set, the set becomes go, and the old go is dropped.
    ensures r.snapshots.mark == RemovePools(newMark, r.retired)
    ensures r.snapshots.set_ == RemovePools(snapshots.mark, r.retired)
    ensures r.snapshots.go == RemovePools(snapshots.set_, r.retired)
    // What the old set earns is what is paid, every pool by its own share.
    ensures r.rewards.Keys == snapshots.set_.poolStakes.Keys * params.Keys
    ensures forall p :: p in r.rewards ==>
              r.rewards[p] == PoolReward(r.totalReward, snapshots.set_.poolStakes[p],
                                         ClampedSum(snapshots.set_.poolStakes), params[p].cost, params[p].margin,
                                         Delegators(snapshots.set_, p))
    ensures r.totalReward == MulDiv(reserves, 3, 1000) <= reserves
    // Reserves are conserved, and no subtraction ever clamps.
    ensures SoundInputs(snapshots.set_, params) ==>
              && Distributed(r.rewards) <= r.totalReward
              && r.newReserves + Distributed(r.rewards) == reserves
  {
    var rotated := Rotate(snapshots, newMark);
    var totalStake := SaturatingTotal(rotated.go.poolStakes);
    FloorShareIsExact(reserves, 3, 1000);
    var totalReward := FloorShare(reserves, 3, 1000);
    var rewards := ComputeRewards(totalReward, totalStake, rotated.go, params);
    var retired := DuePools(retirements, newEpoch);
    var distributed := SumDistributed(rewards);
    r := BoundaryResult(
      SnapshotState(RemovePools(rotated.mark, retired), RemovePools(rotated.set_, retired),
                    RemovePools(rotated.go, retired)),
      rewards, params - retired, retired, SatSub(reserves, distributed), totalReward);
    if SoundInputs(snapshots.set_, params) {
      RewardsWithinTotal(totalReward, rotated.go, params);
    }
  }
}
