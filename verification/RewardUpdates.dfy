/**
 The reward update of one epoch boundary (crates/ade_ledger/src/rules.rs): the pot,
 what each pool pays its leader and members, and the credits they add up to.
 */
module RewardUpdates {
  import opened LedgerTypes
  import opened Rationals
  import opened Sums
  import opened Snapshots
  import opened RewardFormula
  import EpochRewards

  datatype ProtocolParams = ProtocolParams(
    decentralization: Rational,
    monetaryExpansion: Rational,
    treasuryGrowth: Rational,
    poolInfluence: Rational,
    nOpt: nat,
    keyDeposit: Coin,
    poolDeposit: Coin)

  /** What the pool loop reads. */
  datatype PotView = PotView(
    go: StakeSnapshot,
    blocks: map<PoolId, U64>,
    pot: Coin,
    totalStake: Coin,
    activeStake: Coin,
    totalBlocks: U64,
    a0: Rational,
    nOpt: nat)

  datatype Payout = Unpaid | MissingParams | Paid(leader: Coin, members: map<Credential, Coin>)

  predicate IsOwner(params: SnapshotPoolParams, c: Credential) {
    c.KeyHash? && c.hash in params.selfDelegatedOwners
  }

  function OwnerStakes(go: StakeSnapshot, p: PoolId, params: SnapshotPoolParams): map<Credential, Coin> {
    var ds := Delegators(go, p);
    map c | c in ds && IsOwner(params, c) :: ds[c]
  }

  function MemberStakes(go: StakeSnapshot, p: PoolId, params: SnapshotPoolParams): map<Credential, Coin> {
    var ds := Delegators(go, p);
    map c | c in ds && !IsOwner(params, c) :: ds[c]
  }

  function Margin(params: SnapshotPoolParams): Rational {
    RatioOrZero(params.margin.0, params.margin.1)
  }

  /** How a pool's total is shared out: all of it to the leader when it does not cover the cost. */
  function ShareOut(
    total: Coin, params: SnapshotPoolParams, ownerStake: Coin, members: map<Credential, Coin>, stake: Coin): Payout
  {
    if total <= params.cost then
      Paid(total, map[])
    else
      Paid(
        LeaderReward(total, params.cost, Margin(params), ownerStake, stake),
        if stake > 0 then MemberRewards(total, params.cost, Margin(params), members, stake) else map[])
  }

  /** What pool `p` pays: nothing without blocks, without a cap, without its pledge, or when it rounds to zero. */
  ghost function PoolPayout(v: PotView, p: PoolId): Payout
    requires v.totalStake > 0 && p in v.go.poolStakes
  {
    var blocks, stake := GetOr(v.blocks, p), v.go.poolStakes[p];
    if blocks == 0 then
      Unpaid
    else if p !in v.go.poolParams then
      MissingParams
    else
      var params := v.go.poolParams[p];
      var ownerStake := EpochRewards.ClampedSum(OwnerStakes(v.go, p, params));
      var maxPool := MaxPool(v.pot, stake, v.totalStake, params.pledge, v.a0, v.nOpt);
      var total := PoolTotal(maxPool, blocks, v.totalBlocks, stake, v.activeStake);
      if maxPool == 0 || (0 < params.pledge && ownerStake < params.pledge) || total == 0 then
        Unpaid
      else
        ShareOut(total, params, ownerStake, MemberStakes(v.go, p, params), stake)
  }

  method ComputePoolPayout(v: PotView, p: PoolId) returns (r: Payout)
    requires v.totalStake > 0 && p in v.go.poolStakes
    ensures r == PoolPayout(v, p)
  {
    var blocks, stake := GetOr(v.blocks, p), v.go.poolStakes[p];
    if blocks == 0 {
      return Unpaid;
    }
    if p !in v.go.poolParams {
      return MissingParams;
    }
    var params := v.go.poolParams[p];
    var maxPool := MaxPool(v.pot, stake, v.totalStake, params.pledge, v.a0, v.nOpt);
    if maxPool == 0 {
      return Unpaid;
    }
    var ownerStake := EpochRewards.SaturatingTotal(OwnerStakes(v.go, p, params));
    if 0 < params.pledge && params.pledge > ownerStake {
      return Unpaid;
    }
    var total := PoolTotal(maxPool, blocks, v.totalBlocks, stake, v.activeStake);
    if total == 0 {
      return Unpaid;
    }
    r := ShareOut(total, params, ownerStake, MemberStakes(v.go, p, params), stake);
  }

  /** Everything a payout hands out. */
  ghost function PaidOut(r: Payout): nat {
    match r
    case Paid(leader, members) =>
      SumBounds(members);
      leader + Sum(members)
    case _ => 0
  }

  predicate ProportionalMargin(params: SnapshotPoolParams) {
    params.margin.1 == 0 || params.margin.0 <= params.margin.1
  }

  /** Per-pool stake sums, exact totals, margins that are proportions, a non-negative pledge influence. */
  ghost predicate Regular(v: PotView) {
    && PoolStakesAreSums(v.go)
    && v.activeStake == Sum(v.go.poolStakes) && v.totalBlocks == Sum(v.blocks)
    && v.a0 >= 0.0
    && (forall p :: p in v.go.poolParams ==> ProportionalMargin(v.go.poolParams[p]))
  }

  /**
   Active stake is within circulation, or above it by so little that the excess share
   of the pot is less than one lovelace.
   */
  predicate Solvent(pot: nat, totalStake: nat, activeStake: nat) {
    pot * (activeStake - totalStake) < totalStake
  }

  ghost predicate Feasible(v: PotView) {
    Regular(v) && Solvent(v.pot, v.totalStake, v.activeStake)
  }

  lemma MarginIsProportion(params: SnapshotPoolParams)
    requires ProportionalMargin(params)
    ensures 0.0 <= Margin(params) <= 1.0
  {
    if params.margin.1 > 0 {
      ProperFraction(params.margin.0 as real, params.margin.1 as real);
    }
  }

  lemma OwnersAndMembers(go: StakeSnapshot, p: PoolId, params: SnapshotPoolParams)
    ensures Sum(OwnerStakes(go, p, params)) + Sum(MemberStakes(go, p, params)) == Sum(Delegators(go, p))
    ensures 0 <= Sum(OwnerStakes(go, p, params))
  {
    var owners, members, ds := OwnerStakes(go, p, params), MemberStakes(go, p, params), Delegators(go, p);
    SumOfParts(owners, ds);
    assert ds - owners.Keys == members;
    SumBounds(owners);
    SumBounds(members);
  }

  /** What a pool with parameters earns, before it is shared out. */
  function EarnedBy(v: PotView, p: PoolId): U64
    requires v.totalStake > 0 && p in v.go.poolStakes && p in v.go.poolParams
  {
    var stake := v.go.poolStakes[p];
    PoolTotal(MaxPool(v.pot, stake, v.totalStake, v.go.poolParams[p].pledge, v.a0, v.nOpt), GetOr(v.blocks, p),
              v.totalBlocks, stake, v.activeStake)
  }

  /** A paid pool has blocks, parameters and stake. */
  lemma PaidPool(v: PotView, p: PoolId)
    requires v.totalStake > 0 && p in v.go.poolStakes && PoolPayout(v, p).Paid? && v.a0 >= 0.0
    ensures GetOr(v.blocks, p) > 0 && p in v.go.poolParams && v.go.poolStakes[p] > 0
  {
    hide MaxPool, PoolTotal, ShareOut;
    var stake, params := v.go.poolStakes[p], v.go.poolParams[p];
    MaxPoolBound(v.pot, stake, v.totalStake, params.pledge, v.a0, v.nOpt);
    if stake == 0 {
      NoCapNoReward(MaxPool(v.pot, stake, v.totalStake, params.pledge, v.a0, v.nOpt), v.totalStake, v.pot, stake);
    }
  }

  /** A pool never hands out more than it earned. */
  lemma PayoutWithinEarned(v: PotView, p: PoolId)
    requires Regular(v) && v.totalStake > 0 && p in v.go.poolStakes && PoolPayout(v, p).Paid?
    ensures p in v.go.poolParams && PaidOut(PoolPayout(v, p)) <= EarnedBy(v, p)
  {
    hide MaxPool, PoolTotal, ShareOut;
    PaidPool(v, p);
    var params := v.go.poolParams[p];
    var ownerStake := EpochRewards.ClampedSum(OwnerStakes(v.go, p, params));
    OwnersAndMembers(v.go, p, params);
    MarginIsProportion(params);
    ShareOutBound(EarnedBy(v, p), params, ownerStake, MemberStakes(v.go, p, params), v.go.poolStakes[p]);
  }

  /** A pool hands out at most the pot's share for its blocks, scaled by active stake over circulation. */
  lemma PayoutBound(v: PotView, p: PoolId)
    requires Regular(v) && v.totalStake > 0 && p in v.go.poolStakes
    ensures PaidOut(PoolPayout(v, p)) * (v.totalBlocks * v.totalStake)
         <= (v.pot * v.activeStake) * GetOr(v.blocks, p)
  {
    hide PoolPayout, MaxPool, PoolTotal;
    var blocks, r := GetOr(v.blocks, p), PoolPayout(v, p);
    if r.Paid? {
      PaidPool(v, p);
      SumBounds(v.blocks);
      PoolTotalBound(v.pot, v.go.poolStakes[p], v.totalStake, v.activeStake, v.go.poolParams[p].pledge, v.a0, v.nOpt,
                     blocks, v.totalBlocks);
      PayoutWithinEarned(v, p);
      TimesWithin(PaidOut(r), EarnedBy(v, p), v.totalBlocks * v.totalStake, (v.pot * v.activeStake) * blocks);
    } else {
      NothingOwed(v.pot, v.activeStake, blocks, v.totalBlocks * v.totalStake);
    }
  }

  lemma NothingOwed(pot: nat, activeStake: nat, blocks: nat, x: int)
    ensures 0 * x <= (pot * activeStake) * blocks
  {
  }

  lemma NoCapNoReward(maxPool: int, totalStake: int, pot: int, stake: int)
    requires 0 <= maxPool && 0 < totalStake && stake == 0 && maxPool * totalStake <= pot * stake
    ensures maxPool == 0
  {
  }

  lemma ShareOutBound(
    total: Coin, params: SnapshotPoolParams, ownerStake: Coin, members: map<Credential, Coin>, stake: Coin)
    requires 0.0 <= Margin(params) <= 1.0 && stake > 0 && ownerStake + Sum(members) <= stake
    ensures ShareOut(total, params, ownerStake, members, stake).Paid?
    ensures PaidOut(ShareOut(total, params, ownerStake, members, stake)) <= total
  {
    hide LeaderReward, MemberRewards, Margin;
    if params.cost < total {
      SharesWithinReward(total, params.cost, Margin(params), ownerStake, members, stake);
    }
  }

  // All pools together.

  ghost function PaidByPool(v: PotView, pools: set<PoolId>): map<PoolId, int>
    requires v.totalStake > 0 && pools <= v.go.poolStakes.Keys
  {
    map p | p in pools :: PaidOut(PoolPayout(v, p))
  }

  ghost function BlocksOf(v: PotView, pools: set<PoolId>): map<PoolId, int> {
    map p | p in pools :: GetOr(v.blocks, p)
  }

  lemma BlocksWithinTotal(v: PotView, pools: set<PoolId>)
    ensures Sum(BlocksOf(v, pools)) <= Sum(v.blocks)
  {
    var counted := map p | p in pools && p in v.blocks :: v.blocks[p];
    SumIgnoresZeros(counted, BlocksOf(v, pools));
    SumSubset(counted, v.blocks);
  }

  /** Whatever the view, the payouts relate to the pot as active stake does to circulation, at most. */
  lemma PaidAgainstCirculation(v: PotView, pools: set<PoolId>)
    requires Regular(v) && v.totalStake > 0 && pools <= v.go.poolStakes.Keys
    ensures 0 <= Sum(PaidByPool(v, pools)) && Sum(PaidByPool(v, pools)) * v.totalStake <= v.pot * v.activeStake
  {
    hide PoolPayout, PaidOut, Regular;
    var paid, blocks := PaidByPool(v, pools), BlocksOf(v, pools);
    SumBounds(paid);
    TotalBlocksOf(v);
    if v.totalBlocks == 0 {
      NoBlocksNoRewards(v, pools);
      NothingOwed(v.pot, v.activeStake, 1, v.totalStake);
    } else {
      PayoutsScale(v, pools, v.totalBlocks * v.totalStake, v.pot * v.activeStake);
      BlocksWithinTotal(v, pools);
      CancelBlocks(Sum(paid), v.totalStake, v.pot * v.activeStake, Sum(blocks), v.totalBlocks);
    }
  }

  lemma TotalBlocksOf(v: PotView)
    requires Regular(v)
    ensures v.totalBlocks == Sum(v.blocks)
  {
  }

  lemma PayoutsScale(v: PotView, pools: set<PoolId>, x: int, y: int)
    requires Regular(v) && v.totalStake > 0 && pools <= v.go.poolStakes.Keys
    requires x == v.totalBlocks * v.totalStake && y == v.pot * v.activeStake
    ensures x * Sum(PaidByPool(v, pools)) <= y * Sum(BlocksOf(v, pools))
  {
    hide PoolPayout, PaidOut, Regular;
    var paid, blocks := PaidByPool(v, pools), BlocksOf(v, pools);
    forall p | p in paid
      ensures Scaled(x, paid)[p] <= Scaled(y, blocks)[p]
    {
      PayoutBound(v, p);
    }
    SumScaledLe(x, paid, y, blocks);
  }

  lemma CancelBlocks(paid: int, totalStake: int, due: int, blocks: int, totalBlocks: int)
    requires 0 <= due && 0 < totalBlocks && blocks <= totalBlocks
    requires (totalBlocks * totalStake) * paid <= due * blocks
    ensures paid * totalStake <= due
  {
    MulMonoInt(blocks, totalBlocks, due);
    assert (totalBlocks * totalStake) * paid == (paid * totalStake) * totalBlocks;
    CancelWithin(paid * totalStake, due, totalBlocks, due * blocks);
  }

  lemma NoBlocksNoRewards(v: PotView, pools: set<PoolId>)
    requires Sum(v.blocks) == 0 && v.totalStake > 0 && pools <= v.go.poolStakes.Keys
    ensures Sum(PaidByPool(v, pools)) == 0
  {
    SumBounds(v.blocks);
    var none: map<PoolId, int> := map[];
    SumIgnoresZeros(none, PaidByPool(v, pools));
  }

  /** All payouts together stay within the pot. */
  lemma PaidWithinPot(v: PotView, pools: set<PoolId>)
    requires Feasible(v) && v.totalStake > 0 && pools <= v.go.poolStakes.Keys
    ensures 0 <= Sum(PaidByPool(v, pools)) <= v.pot
  {
    PaidAgainstCirculation(v, pools);
    WithinWhenSolvent(Sum(PaidByPool(v, pools)), v.pot, v.totalStake, v.activeStake);
  }

  lemma WithinWhenSolvent(paid: int, pot: nat, totalStake: nat, activeStake: nat)
    requires 0 < totalStake && paid * totalStake <= pot * activeStake && Solvent(pot, totalStake, activeStake)
    ensures paid <= pot
  {
    Distribute(pot, activeStake, 0 - totalStake);
    Distribute(totalStake, pot, 1);
    if paid >= pot + 1 {
      MulMonoInt(pot + 1, paid, totalStake);
    }
  }

  // Exactly when the pot is safe.

  /** No view of this pot, circulation and active stake pays out more than the pot. */
  ghost predicate NeverOverdrawn(pot: Coin, totalStake: Coin, activeStake: Coin)
    requires totalStake > 0
  {
    forall v :: Regular(v) && v.pot == pot && v.totalStake == totalStake && v.activeStake == activeStake ==>
      Sum(PaidByPool(v, v.go.poolStakes.Keys)) <= pot
  }

  /**
   The pot can be overdrawn if and only if active stake exceeds circulation by enough
   that the excess share of the pot is a whole lovelace.
   */
  lemma PotIsSafeIffSolvent(
    pot: Coin, totalStake: Coin, activeStake: Coin, p: PoolId, q: PoolId, a: Credential, b: Credential)
    requires totalStake > 0 && p != q && a != b
    ensures NeverOverdrawn(pot, totalStake, activeStake) <==> Solvent(pot, totalStake, activeStake)
  {
    if Solvent(pot, totalStake, activeStake) {
      forall v | Regular(v) && v.pot == pot && v.totalStake == totalStake && v.activeStake == activeStake
        ensures Sum(PaidByPool(v, v.go.poolStakes.Keys)) <= pot
      {
        PaidWithinPot(v, v.go.poolStakes.Keys);
      }
    } else {
      ExcessIsPositive(pot, totalStake, activeStake);
      OverdrawnWhenInsolvent(pot, totalStake, activeStake, p, q, a, b);
    }
  }

  lemma ExcessIsPositive(pot: nat, totalStake: nat, activeStake: nat)
    requires 0 < totalStake && !Solvent(pot, totalStake, activeStake)
    ensures totalStake < activeStake && 0 < pot
  {
    if activeStake <= totalStake {
      MulMonoInt(activeStake - totalStake, 0, pot);
    }
  }

  /** Parameters without pledge, whose cost takes everything. */
  function AllToLeader(a: Credential): SnapshotPoolParams {
    SnapshotPoolParams(0, U64_MAX, (0, 1), a, {})
  }

  /**
   One pool holds as much as the circulation, another the excess; each makes blocks in
   proportion to its stake, so both perform exactly as expected.
   */
  function ExcessView(
    pot: Coin, totalStake: Coin, activeStake: Coin, p: PoolId, q: PoolId, a: Credential, b: Credential): PotView
    requires totalStake < activeStake
  {
    var excess := activeStake - totalStake;
    PotView(
      StakeSnapshot(map[a := (p, totalStake), b := (q, excess)], map[p := totalStake, q := excess],
                    map[p := AllToLeader(a), q := AllToLeader(b)]),
      map[p := totalStake, q := excess], pot, totalStake, activeStake, activeStake, 0.0, 1)
  }

  /** Above that excess the view pays the pot once to the first pool and again, in part, to the second. */
  lemma OverdrawnWhenInsolvent(
    pot: Coin, totalStake: Coin, activeStake: Coin, p: PoolId, q: PoolId, a: Credential, b: Credential)
    requires 0 < totalStake < activeStake && p != q && a != b
    requires !Solvent(pot, totalStake, activeStake)
    ensures var v := ExcessView(pot, totalStake, activeStake, p, q, a, b);
      Regular(v) && Sum(PaidByPool(v, v.go.poolStakes.Keys)) > pot
  {
    hide PoolPayout, MaxPool, Regular, Solvent;
    var v, excess := ExcessView(pot, totalStake, activeStake, p, q, a, b), activeStake - totalStake;
    ExcessViewIsRegular(pot, totalStake, activeStake, p, q, a, b);
    ExcessPayouts(pot, totalStake, activeStake, p, q, a, b);
    TwoPayouts(v, p, q);
  }

  lemma ExcessPayouts(
    pot: Coin, totalStake: Coin, activeStake: Coin, p: PoolId, q: PoolId, a: Credential, b: Credential)
    requires 0 < totalStake < activeStake && p != q && a != b && !Solvent(pot, totalStake, activeStake)
    ensures var v := ExcessView(pot, totalStake, activeStake, p, q, a, b);
      && v.go.poolStakes.Keys == {p, q}
      && PaidOut(PoolPayout(v, p)) == pot && PaidOut(PoolPayout(v, q)) > 0
  {
    hide PoolPayout, MaxPool, PaidOut;
    var v, excess := ExcessView(pot, totalStake, activeStake, p, q, a, b), activeStake - totalStake;
    ExcessIsPositive(pot, totalStake, activeStake);
    ExcessShare(pot, excess, totalStake);
    FullShare(pot, totalStake);
    LeaderTakesAll(v, p, pot, totalStake, a);
    LeaderTakesAll(v, q, MaxPool(pot, excess, totalStake, 0, 0.0, 1), excess, b);
  }

  lemma TwoPayouts(v: PotView, p: PoolId, q: PoolId)
    requires p != q && v.totalStake > 0 && v.go.poolStakes.Keys == {p, q}
    ensures Sum(PaidByPool(v, v.go.poolStakes.Keys)) == PaidOut(PoolPayout(v, p)) + PaidOut(PoolPayout(v, q))
  {
    hide PoolPayout, PaidOut;
    var x, y := PaidOut(PoolPayout(v, p)), PaidOut(PoolPayout(v, q));
    assert PaidByPool(v, {p, q}) == map[p := x, q := y];
    SumOfTwo(p, q, x, y);
  }

  lemma ExcessViewIsRegular(
    pot: Coin, totalStake: Coin, activeStake: Coin, p: PoolId, q: PoolId, a: Credential, b: Credential)
    requires totalStake < activeStake && p != q && a != b
    ensures Regular(ExcessView(pot, totalStake, activeStake, p, q, a, b))
  {
    var v, excess := ExcessView(pot, totalStake, activeStake, p, q, a, b), activeStake - totalStake;
    hide Delegators;
    OneDelegator(v.go, p, a, totalStake);
    OneDelegator(v.go, q, b, excess);
    SumOfTwo(p, q, totalStake, excess);
  }

  lemma OneDelegator(go: StakeSnapshot, p: PoolId, c: Credential, stake: Coin)
    requires c in go.delegations && go.delegations[c] == (p, stake)
    requires forall k :: k in go.delegations && go.delegations[k].0 == p ==> k == c
    ensures Sum(Delegators(go, p)) == stake
  {
    var none: map<Credential, int> := map[];
    assert Delegators(go, p) == none[c := stake as int];
    SumUpdate(none, c, stake);
  }

  /** With no pledge, no influence and one desired pool, the cap is the plain share, at most the pot. */
  lemma PlainCap(pot: U64, stake: U64, totalStake: U64)
    requires 0 < totalStake
    ensures MaxPool(pot, stake, totalStake, 0, 0.0, 1)
         == if stake <= totalStake then MulDiv(pot, stake, totalStake) else pot
  {
    hide MaxPool, MulDiv;
    CapWithoutPledge(pot, stake, totalStake, 0, 0.0, 1);
  }

  lemma CapWithoutPledge(pot: U64, stake: U64, totalStake: U64, pledge: U64, a0: Rational, nOpt: nat)
    requires 0 < totalStake && pledge == 0 && a0 == 0.0 && nOpt == 1
    ensures MaxPool(pot, stake, totalStake, pledge, a0, nOpt)
         == if stake <= totalStake then MulDiv(pot, stake, totalStake) else pot
  {
    hide Cap, MulDiv, AtMost, FloorAsU64;
    NoPledge(totalStake as real);
    var sigma, s, z := stake as real / totalStake as real, pledge as real / totalStake as real, 1.0 / nOpt as real;
    PlainCapReal(pot, sigma, s, z, a0);
    FloorOfPlainCap(pot, stake, totalStake, Cap(pot, sigma, s, z, a0));
  }

  lemma NoPledge(t: real)
    requires t > 0.0
    ensures 0.0 / t == 0.0 && 1.0 / 1.0 == 1.0
  {
  }

  lemma PlainCapReal(pot: U64, sigma: real, s: real, z: real, a0: real)
    requires s == 0.0 && z == 1.0 && a0 == 0.0
    ensures Cap(pot, sigma, s, z, a0) == pot as real * AtMost(sigma, 1.0)
  {
    assert Bracket(sigma, s, z, a0) == AtMost(sigma, 1.0);
  }

  lemma FloorOfPlainCap(pot: U64, stake: U64, totalStake: U64, x: real)
    requires 0 < totalStake && x == pot as real * AtMost(stake as real / totalStake as real, 1.0)
    ensures FloorAsU64(x.Floor)
         == if stake <= totalStake then MulDiv(pot, stake, totalStake) else pot
  {
    hide MulDiv, FloorAsU64;
    SigmaOrder(stake, totalStake);
    if stake <= totalStake {
      assert x == Share(pot, stake, totalStake);
      ShareFloor(pot, stake, totalStake);
      DivisionBounds(pot, stake, totalStake);
      Unwrapped(MulDiv(pot, stake, totalStake));
    } else {
      Unwrapped(pot);
    }
  }

  lemma SigmaOrder(stake: U64, totalStake: U64)
    requires 0 < totalStake
    ensures stake as real / totalStake as real > 1.0 <==> stake > totalStake
  {
    var sigma, t := stake as real / totalStake as real, totalStake as real;
    ScaleOrder(1.0, sigma, t);
    assert sigma * t == stake as real;
  }

  lemma Unwrapped(x: int)
    requires 0 <= x <= U64_MAX
    ensures FloorAsU64(x) == x
  {
  }

  lemma FullShare(pot: U64, totalStake: U64)
    requires 0 < totalStake
    ensures MaxPool(pot, totalStake, totalStake, 0, 0.0, 1) == pot
  {
    hide MaxPool, MulDiv;
    PlainCap(pot, totalStake, totalStake);
    WholeShare(pot, totalStake);
  }

  lemma WholeShare(x: nat, z: nat)
    requires 0 < z
    ensures MulDiv(x, z, z) == x
  {
    hide MulDiv;
    MulDivPinned(x, z, z);
    Pinned(MulDiv(x, z, z), x, z);
  }

  lemma Pinned(q: int, x: int, z: int)
    requires 0 < z && q * z <= x * z < (q + 1) * z
    ensures q == x
  {
    CancelFactor(q, x, z);
    CancelFactor(x, q + 1, z);
  }

  lemma ExcessShare(pot: U64, excess: U64, totalStake: U64)
    requires 0 < totalStake && totalStake <= pot * excess && 0 < pot
    ensures MaxPool(pot, excess, totalStake, 0, 0.0, 1) > 0
  {
    hide MaxPool, MulDiv;
    PlainCap(pot, excess, totalStake);
    AtLeastOne(pot, excess, totalStake);
  }

  lemma AtLeastOne(x: nat, y: nat, z: nat)
    requires 0 < z <= x * y
    ensures MulDiv(x, y, z) >= 1
  {
    hide MulDiv;
    MulDivPinned(x, y, z);
    AboveZero(MulDiv(x, y, z), z, x * y);
  }

  lemma AboveZero(q: int, z: int, n: int)
    requires 0 < z <= n < (q + 1) * z
    ensures q >= 1
  {
    CancelFactor(1, q + 1, z);
  }

  /** A pool that performs as expected, with a positive cap and a cost that takes everything. */
  lemma LeaderTakesAll(v: PotView, p: PoolId, maxPool: U64, stake: U64, a: Credential)
    requires v.totalStake > 0 && p in v.go.poolStakes && v.go.poolStakes[p] == stake > 0
    requires p in v.blocks && v.blocks[p] == stake && v.totalBlocks == v.activeStake > 0
    requires p in v.go.poolParams && v.go.poolParams[p] == AllToLeader(a)
    requires maxPool == MaxPool(v.pot, stake, v.totalStake, 0, v.a0, v.nOpt) > 0
    ensures PoolPayout(v, p) == Paid(maxPool, map[]) && PaidOut(PoolPayout(v, p)) == maxPool
  {
    hide MaxPool, FloorShare;
    ExpectedPerformance(maxPool, stake, v.activeStake);
    NoOwners(v.go, p);
  }

  lemma NoOwners(go: StakeSnapshot, p: PoolId)
    requires p in go.poolParams && go.poolParams[p].selfDelegatedOwners == {}
    ensures EpochRewards.ClampedSum(OwnerStakes(go, p, go.poolParams[p])) == 0
  {
    assert OwnerStakes(go, p, go.poolParams[p]) == map[];
  }

  lemma ExpectedPerformance(maxPool: U64, stake: U64, activeStake: U64)
    requires 0 < stake && 0 < activeStake
    ensures FloorShare(maxPool, stake * activeStake, activeStake * stake) == maxPool
  {
    hide FloorShare, MulDiv;
    assert stake * activeStake == activeStake * stake > 0;
    FloorShareIsWrapped(maxPool, stake * activeStake, activeStake * stake);
    WholeShare(maxPool, activeStake * stake);
  }

  // Adding the payouts up into credits.

  /** What a payout gives to one credential, as leader and as member. */
  ghost function CreditTo(v: PotView, p: PoolId, c: Credential): nat
    requires v.totalStake > 0 && p in v.go.poolStakes
  {
    match PoolPayout(v, p)
    case Paid(leader, members) =>
      (if p in v.go.poolParams && v.go.poolParams[p].rewardAccount == c then leader else 0) + GetOr(members, c)
    case _ => 0
  }

  ghost function CreditsTo(v: PotView, pools: set<PoolId>, c: Credential): map<PoolId, int>
    requires v.totalStake > 0 && pools <= v.go.poolStakes.Keys
  {
    map p | p in pools :: CreditTo(v, p, c)
  }

  /** Adding one amount to one account. */
  function AddCredit(credits: map<Credential, Coin>, c: Credential, amount: Coin): map<Credential, Coin> {
    credits[c := SatAdd(GetOr(credits, c), amount)]
  }

  lemma AddCreditExact(credits: map<Credential, Coin>, c: Credential, amount: Coin)
    requires Sum(credits) + amount <= U64_MAX
    ensures Sum(AddCredit(credits, c, amount)) == Sum(credits) + amount
    ensures forall k :: GetOr(AddCredit(credits, c, amount), k) == GetOr(credits, k) + if k == c then amount else 0
  {
    SumBounds(credits);
    SumUpdate(credits, c, SatAdd(GetOr(credits, c), amount));
  }

  function Positive(members: map<Credential, Coin>): set<Credential> {
    set c | c in members && members[c] > 0
  }

  /** Every positive member reward added to its account, at once. */
  function WithMembers(credits: map<Credential, Coin>, members: map<Credential, Coin>): map<Credential, Coin> {
    map c | c in credits.Keys + Positive(members) :: SatAdd(GetOr(credits, c), GetOr(members, c))
  }

  /** The member loop: each positive reward is added to its account and to the running total. */
  method CreditMembers(credits: map<Credential, Coin>, members: map<Credential, Coin>)
    returns (after: map<Credential, Coin>, paid: Coin)
    ensures after == WithMembers(credits, members) && paid == WrapU64(Sum(members))
  {
    hide AddCredit, WithMembers, WrapU64;
    after, paid := credits, 0;
    var remaining := members.Keys;
    ghost var done: map<Credential, Coin> := map[];
    AllTaken(members);
    NoMembersYet(credits);
    while remaining != {}
      invariant remaining <= members.Keys && done == members - remaining
      invariant after == WithMembers(credits, done) && paid == WrapU64(Sum(done))
    {
      var c :| c in remaining;
      TakenStep(members, remaining, done, c);
      WithOneMore(credits, done, c, members[c]);
      SumUpdate(done, c, members[c]);
      WrapTwice(Sum(done), members[c]);
      remaining, done := remaining - {c}, done[c := members[c]];
      if members[c] > 0 {
        after, paid := AddCredit(after, c, members[c]), WrapU64(paid + members[c]);
      }
    }
  }

  lemma WrapTwice(x: int, y: int)
    ensures WrapU64(WrapU64(x) + y) == WrapU64(x + y)
  {
  }

  lemma NoMembersYet(credits: map<Credential, Coin>)
    ensures WithMembers(credits, map[]) == credits && WrapU64(Sum<Credential>(map[])) == 0
  {
  }

  lemma WithOneMore(credits: map<Credential, Coin>, done: map<Credential, Coin>, c: Credential, m: Coin)
    requires c !in done
    ensures WithMembers(credits, done[c := m])
         == if m > 0 then AddCredit(WithMembers(credits, done), c, m) else WithMembers(credits, done)
  {
    var a := WithMembers(credits, done[c := m]);
    var b := if m > 0 then AddCredit(WithMembers(credits, done), c, m) else WithMembers(credits, done);
    forall x
      ensures x in a <==> x in b
      ensures x in b ==> a[x] == b[x]
    {
    }
  }

  /** Without overflow the accounts grow by exactly the members' rewards. */
  lemma WithMembersTotal(credits: map<Credential, Coin>, members: map<Credential, Coin>)
    requires Sum(credits) + Sum(members) <= U64_MAX
    ensures Sum(WithMembers(credits, members)) == Sum(credits) + Sum(members)
  {
    hide WithMembers;
    var after := WithMembers(credits, members);
    var x := map c | c in after :: GetOr(credits, c) as int;
    var y := map c | c in after :: GetOr(members, c) as int;
    WithMembersKeys(credits, members);
    SumIgnoresZeros(credits, x);
    SamePositives(members, y);
    forall c | c in after
      ensures after[c] == x[c] + y[c]
    {
      WithMembersAt(credits, members, c);
    }
    SumPlus(x, y, after);
  }

  lemma WithMembersKeys(credits: map<Credential, Coin>, members: map<Credential, Coin>)
    ensures WithMembers(credits, members).Keys == credits.Keys + Positive(members)
  {
  }

  lemma WithMembersAt(credits: map<Credential, Coin>, members: map<Credential, Coin>, c: Credential)
    requires Sum(credits) + Sum(members) <= U64_MAX && c in WithMembers(credits, members)
    ensures WithMembers(credits, members)[c] == GetOr(credits, c) + GetOr(members, c)
  {
    SumBounds(credits);
    SumBounds(members);
  }

  lemma SamePositives(members: map<Credential, Coin>, y: map<Credential, int>)
    requires Positive(members) <= y.Keys
    requires forall c :: c in y ==> y[c] == GetOr(members, c)
    ensures Sum(y) == Sum(members)
  {
    var paid := map c | c in members && members[c] > 0 :: members[c] as int;
    SumIgnoresZeros(paid, members);
    SumIgnoresZeros(paid, y);
  }

  /** One pool's payout: its leader's account first, then its members'. */
  function WithPayout(credits: map<Credential, Coin>, account: Credential, r: Payout): map<Credential, Coin>
    requires r.Paid?
  {
    WithMembers(AddCredit(credits, account, r.leader), r.members)
  }

  lemma WithPayoutTotal(credits: map<Credential, Coin>, account: Credential, r: Payout)
    requires r.Paid? && Sum(credits) + PaidOut(r) <= U64_MAX
    ensures Sum(WithPayout(credits, account, r)) == Sum(credits) + PaidOut(r)
  {
    hide AddCredit, WithMembers;
    SumBounds(r.members);
    AddCreditExact(credits, account, r.leader);
    WithMembersTotal(AddCredit(credits, account, r.leader), r.members);
  }

  // The whole loop.

  datatype Allocation = Allocation(credits: map<Credential, Coin>, sumRewards: Coin)

  /** The accounts a pool's payout writes to. */
  ghost function Recipients(v: PotView, p: PoolId): set<Credential>
    requires v.totalStake > 0 && p in v.go.poolStakes
  {
    match PoolPayout(v, p)
    case Paid(_, members) =>
      (if p in v.go.poolParams then {v.go.poolParams[p].rewardAccount} else {}) + Positive(members)
    case _ => {}
  }

  ghost function AllRecipients(v: PotView, pools: set<PoolId>): set<Credential>
    requires v.totalStake > 0 && pools <= v.go.poolStakes.Keys
  {
    set p, c | p in pools && c in Recipients(v, p) :: c
  }

  /** Each account's credits from all pools, clamped once. */
  ghost function CreditsOf(v: PotView, pools: set<PoolId>): map<Credential, Coin>
    requires v.totalStake > 0 && pools <= v.go.poolStakes.Keys
  {
    map c | c in AllRecipients(v, pools) :: CreditOf(v, pools, c)
  }

  ghost function CreditOf(v: PotView, pools: set<PoolId>, c: Credential): Coin
    requires v.totalStake > 0 && pools <= v.go.poolStakes.Keys
  {
    SumBounds(CreditsTo(v, pools, c));
    Min(Sum(CreditsTo(v, pools, c)), U64_MAX)
  }

  ghost function Leaders(v: PotView, pools: set<PoolId>): map<PoolId, Coin>
    requires v.totalStake > 0 && pools <= v.go.poolStakes.Keys
  {
    map p | p in pools :: LeaderOf(PoolPayout(v, p))
  }

  function LeaderOf(r: Payout): Coin {
    if r.Paid? then r.leader else 0
  }

  /** A pool's member total, as the source's plain addition leaves it. */
  ghost function MemberTotal(r: Payout): Coin {
    if r.Paid? then WrapU64(Sum(r.members)) else 0
  }

  ghost function MemberTotals(v: PotView, pools: set<PoolId>): map<PoolId, Coin>
    requires v.totalStake > 0 && pools <= v.go.poolStakes.Keys
  {
    map p | p in pools :: MemberTotal(PoolPayout(v, p))
  }

  ghost function AllocationOf(v: PotView): Allocation
    requires v.totalStake > 0
  {
    var pools := v.go.poolStakes.Keys;
    Allocation(CreditsOf(v, pools),
               SatAdd(EpochRewards.ClampedSum(Leaders(v, pools)), EpochRewards.ClampedSum(MemberTotals(v, pools))))
  }

  /** A pool that made blocks and has no frozen parameters stops the calculation. */
  ghost predicate Stops(v: PotView)
    requires v.totalStake > 0
  {
    exists p :: p in v.go.poolStakes && PoolPayout(v, p).MissingParams?
  }

  lemma PaidStep(v: PotView, pools: set<PoolId>, p: PoolId)
    requires v.totalStake > 0 && pools <= v.go.poolStakes.Keys && p in v.go.poolStakes && p !in pools
    ensures Sum(PaidByPool(v, pools + {p})) == Sum(PaidByPool(v, pools)) + PaidOut(PoolPayout(v, p))
  {
    hide PoolPayout, PaidOut;
    SumUpdate(PaidByPool(v, pools), p, PaidOut(PoolPayout(v, p)));
    assert PaidByPool(v, pools + {p}) == PaidByPool(v, pools)[p := PaidOut(PoolPayout(v, p))];
  }

  lemma CreditsToStep(v: PotView, pools: set<PoolId>, p: PoolId, c: Credential)
    requires v.totalStake > 0 && pools <= v.go.poolStakes.Keys && p in v.go.poolStakes && p !in pools
    ensures Sum(CreditsTo(v, pools + {p}, c)) == Sum(CreditsTo(v, pools, c)) + CreditTo(v, p, c)
    ensures 0 <= Sum(CreditsTo(v, pools, c))
  {
    hide PoolPayout, CreditTo;
    SumBounds(CreditsTo(v, pools, c));
    SumUpdate(CreditsTo(v, pools, c), p, CreditTo(v, p, c));
    assert CreditsTo(v, pools + {p}, c) == CreditsTo(v, pools, c)[p := CreditTo(v, p, c)];
  }

  lemma TotalsStep(v: PotView, pools: set<PoolId>, p: PoolId)
    requires v.totalStake > 0 && pools <= v.go.poolStakes.Keys && p in v.go.poolStakes && p !in pools
    ensures Sum(Leaders(v, pools + {p})) == Sum(Leaders(v, pools)) + LeaderOf(PoolPayout(v, p))
    ensures Sum(MemberTotals(v, pools + {p})) == Sum(MemberTotals(v, pools)) + MemberTotal(PoolPayout(v, p))
  {
    hide PoolPayout, LeaderOf, MemberTotal;
    SumUpdate(Leaders(v, pools), p, LeaderOf(PoolPayout(v, p)));
    assert Leaders(v, pools + {p}) == Leaders(v, pools)[p := LeaderOf(PoolPayout(v, p))];
    SumUpdate(MemberTotals(v, pools), p, MemberTotal(PoolPayout(v, p)));
    assert MemberTotals(v, pools + {p}) == MemberTotals(v, pools)[p := MemberTotal(PoolPayout(v, p))];
  }

  /** Only recipients get anything. */
  lemma {:induction false} OthersGetNothing(v: PotView, pools: set<PoolId>, c: Credential)
    requires v.totalStake > 0 && pools <= v.go.poolStakes.Keys && c !in AllRecipients(v, pools)
    ensures Sum(CreditsTo(v, pools, c)) == 0
  {
    forall p | p in pools
      ensures CreditTo(v, p, c) == 0
    {
      assert c !in Recipients(v, p);
    }
    hide PoolPayout, CreditTo;
    var none: map<PoolId, int> := map[];
    SumIgnoresZeros(none, CreditsTo(v, pools, c));
  }

  lemma RecipientsStep(v: PotView, pools: set<PoolId>, p: PoolId)
    requires v.totalStake > 0 && pools <= v.go.poolStakes.Keys && p in v.go.poolStakes
    ensures AllRecipients(v, pools + {p}) == AllRecipients(v, pools) + Recipients(v, p)
  {
    hide Recipients;
  }

  lemma BalanceOf(v: PotView, pools: set<PoolId>, c: Credential)
    requires v.totalStake > 0 && pools <= v.go.poolStakes.Keys
    ensures GetOr(CreditsOf(v, pools), c) == Min(Sum(CreditsTo(v, pools, c)), U64_MAX)
  {
    hide AllRecipients, CreditsTo;
    if c !in AllRecipients(v, pools) {
      OthersGetNothing(v, pools, c);
    }
  }

  /** Crediting one more pool, in accounts. */
  lemma CreditsStep(v: PotView, pools: set<PoolId>, p: PoolId)
    requires v.totalStake > 0 && pools <= v.go.poolStakes.Keys && p in v.go.poolStakes && p !in pools
    requires PoolPayout(v, p).Paid? ==> p in v.go.poolParams
    ensures CreditsOf(v, pools + {p})
         == match PoolPayout(v, p)
            case Paid(_, _) => WithPayout(CreditsOf(v, pools), v.go.poolParams[p].rewardAccount, PoolPayout(v, p))
            case _ => CreditsOf(v, pools)
  {
    hide PoolPayout, AllRecipients, CreditsTo, WithPayout, CreditsOf, Recipients, CreditTo;
    var before, after, r := CreditsOf(v, pools), CreditsOf(v, pools + {p}), PoolPayout(v, p);
    var b := if r.Paid? then WithPayout(before, v.go.poolParams[p].rewardAccount, r) else before;
    forall c
      ensures c in after <==> c in b
      ensures c in b ==> after[c] == b[c]
    {
      CreditsStepAt(v, pools, p, c);
    }
  }

  lemma CreditsStepAt(v: PotView, pools: set<PoolId>, p: PoolId, c: Credential)
    requires v.totalStake > 0 && pools <= v.go.poolStakes.Keys && p in v.go.poolStakes && p !in pools
    requires PoolPayout(v, p).Paid? ==> p in v.go.poolParams
    ensures var r, before := PoolPayout(v, p), CreditsOf(v, pools);
      var b := if r.Paid? then WithPayout(before, v.go.poolParams[p].rewardAccount, r) else before;
      && (c in CreditsOf(v, pools + {p}) <==> c in b)
      && (c in b ==> CreditsOf(v, pools + {p})[c] == b[c])
  {
    hide PoolPayout, AllRecipients, CreditsTo;
    RecipientsStep(v, pools, p);
    CreditsToStep(v, pools, p, c);
    BalanceOf(v, pools, c);
    BalanceOf(v, pools + {p}, c);
  }

  /**
   The pool loop, in any order. It stops only at a pool that made blocks and has no
   frozen parameters; otherwise every account gets the clamped sum of its credits.
   */
  method AllocateRewards(v: PotView) returns (r: Option<Allocation>)
    requires v.totalStake > 0
    ensures r == if Stops(v) then None else Some(AllocationOf(v))
  {
    hide PoolPayout, CreditsOf, Leaders, MemberTotals;
    var credits: map<Credential, Coin>, poolTotal, memberTotal := map[], 0, 0;
    var remaining := v.go.poolStakes.Keys;
    ghost var done: set<PoolId> := {};
    NothingPaidYet(v);
    while remaining != {}
      invariant remaining <= v.go.poolStakes.Keys && done == v.go.poolStakes.Keys - remaining
      invariant forall p :: p in done ==> !PoolPayout(v, p).MissingParams?
      invariant credits == CreditsOf(v, done)
      invariant poolTotal == EpochRewards.ClampedSum(Leaders(v, done))
      invariant memberTotal == EpochRewards.ClampedSum(MemberTotals(v, done))
    {
      var p :| p in remaining;
      var payout := ComputePoolPayout(v, p);
      if payout.MissingParams? {
        return None;
      }
      PaidHasParams(v, p);
      CreditsStep(v, done, p);
      TotalsStep(v, done, p);
      remaining, done := remaining - {p}, done + {p};
      if payout.Paid? {
        var paid;
        credits, paid := CreditMembers(AddCredit(credits, v.go.poolParams[p].rewardAccount, payout.leader),
                                       payout.members);
        poolTotal, memberTotal := SatAdd(poolTotal, payout.leader), SatAdd(memberTotal, paid);
      }
    }
    assert done == v.go.poolStakes.Keys;
    return Some(Allocation(credits, SatAdd(poolTotal, memberTotal)));
  }

  lemma PaidHasParams(v: PotView, p: PoolId)
    requires v.totalStake > 0 && p in v.go.poolStakes
    ensures PoolPayout(v, p).Paid? ==> p in v.go.poolParams
  {
  }

  lemma NothingPaidYet(v: PotView)
    requires v.totalStake > 0
    ensures CreditsOf(v, {}) == map[] && Leaders(v, {}) == map[] && MemberTotals(v, {}) == map[]
    ensures Sum(PaidByPool(v, {})) == 0
  {
    assert PaidByPool(v, {}) == map[];
  }

  /** While everything fits, accounts and running totals hold exactly what is paid. */
  lemma {:induction false} TotalsAreExact(v: PotView, pools: set<PoolId>)
    requires v.totalStake > 0 && pools <= v.go.poolStakes.Keys && Sum(PaidByPool(v, pools)) <= U64_MAX
    ensures Sum(CreditsOf(v, pools)) == Sum(PaidByPool(v, pools))
    ensures Sum(Leaders(v, pools)) + Sum(MemberTotals(v, pools)) == Sum(PaidByPool(v, pools))
    decreases |pools|
  {
    hide PoolPayout, PaidByPool, CreditsOf, Leaders, MemberTotals;
    if pools == {} {
      NothingPaidYet(v);
    } else {
      var p :| p in pools;
      var rest := pools - {p};
      assert rest + {p} == pools;
      PaidStep(v, rest, p);
      PaidHasParams(v, p);
      PaidFits(PoolPayout(v, p));
      TotalsAreExact(v, rest);
      CreditsStep(v, rest, p);
      TotalsStep(v, rest, p);
      if PoolPayout(v, p).Paid? {
        WithPayoutTotal(CreditsOf(v, rest), v.go.poolParams[p].rewardAccount, PoolPayout(v, p));
        PaidIsNonNegative(v, rest);
      }
    }
  }

  lemma PaidIsNonNegative(v: PotView, pools: set<PoolId>)
    requires v.totalStake > 0 && pools <= v.go.poolStakes.Keys
    ensures 0 <= Sum(PaidByPool(v, pools))
  {
    hide PoolPayout;
    SumBounds(PaidByPool(v, pools));
  }

  lemma PaidFits(r: Payout)
    ensures 0 <= PaidOut(r) && (PaidOut(r) <= U64_MAX ==> LeaderOf(r) + MemberTotal(r) == PaidOut(r))
  {
    if r.Paid? {
      SumBounds(r.members);
    }
  }

  /** On feasible views the credits are exactly the payouts, in total and account by account, within the pot. */
  lemma AllocationWithinPot(v: PotView)
    requires Feasible(v) && v.totalStake > 0
    ensures var pools, r := v.go.poolStakes.Keys, AllocationOf(v);
      && Sum(r.credits) == r.sumRewards == Sum(PaidByPool(v, pools)) <= v.pot
      && forall c :: GetOr(r.credits, c) == Sum(CreditsTo(v, pools, c))
  {
    hide Feasible, PaidByPool, Leaders, MemberTotals, CreditsOf, CreditsTo;
    var pools := v.go.poolStakes.Keys;
    PaidWithinPot(v, pools);
    TotalsAreExact(v, pools);
    SumBounds(Leaders(v, pools));
    SumBounds(MemberTotals(v, pools));
    SumBounds(CreditsOf(v, pools));
    forall c
      ensures GetOr(CreditsOf(v, pools), c) == Sum(CreditsTo(v, pools, c))
    {
      BalanceOf(v, pools, c);
      BalanceFits(CreditsOf(v, pools), c);
      CreditsWithinPaid(v, pools, c);
    }
  }

  lemma BalanceFits(credits: map<Credential, Coin>, c: Credential)
    ensures GetOr(credits, c) <= Sum(credits)
  {
    SumBounds(credits);
  }

  lemma CreditsWithinPaid(v: PotView, pools: set<PoolId>, c: Credential)
    requires v.totalStake > 0 && pools <= v.go.poolStakes.Keys
    ensures Sum(CreditsTo(v, pools, c)) <= Sum(PaidByPool(v, pools))
  {
    forall p | p in pools
      ensures CreditTo(v, p, c) <= PaidOut(PoolPayout(v, p))
    {
      if PoolPayout(v, p).Paid? {
        SumBounds(PoolPayout(v, p).members);
      }
    }
    hide PoolPayout, PaidOut, CreditTo;
    SumLe(CreditsTo(v, pools, c), PaidByPool(v, pools));
  }
}
