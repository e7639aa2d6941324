/**
 The Cardano reward formula as the full epoch boundary computes it
 (crates/ade_ledger/src/rules.rs, protocol major version 7 and later): what the
 reserves release, the cap on a pool's reward, its performance, and how leader and
 members share it.
 */
module RewardFormula {
  import opened LedgerTypes
  import opened Rationals
  import opened Sums

  /** The monetary-expansion performance factor. */
  function Eta(d: Rational, blocks: U64, slotsPerEpoch: U64): Rational {
    if d >= 0.8 then
      1.0
    else
      var expected := FloorAsU64(((1.0 - d) * slotsPerEpoch as real).Floor);
      var atLeastOne := if expected == 0 then 1 else expected;
      if blocks >= atLeastOne then 1.0 else blocks as real / atLeastOne as real
  }

  lemma EtaIsProportion(d: Rational, blocks: U64, slotsPerEpoch: U64)
    ensures 0.0 <= Eta(d, blocks, slotsPerEpoch) <= 1.0
  {
    var expected := FloorAsU64(((1.0 - d) * slotsPerEpoch as real).Floor);
    var atLeastOne := if expected == 0 then 1 else expected;
    if d < 0.8 && blocks < atLeastOne {
      ProperFraction(blocks as real, atLeastOne as real);
    }
  }

  lemma ProperFraction(a: real, b: real)
    requires 0.0 <= a <= b && b > 0.0
    ensures 0.0 <= a / b <= 1.0
  {
  }

  function AtMost(x: Rational, cap: Rational): Rational {
    if x > cap then cap else x
  }

  /** The saturation bracket: capped stake, plus the pledge's influence on it. */
  function Bracket(sigma: Rational, s: Rational, z: Rational, a0: Rational): Rational
    requires z != 0.0
  {
    var sigma', s' := AtMost(sigma, z), AtMost(s, z);
    var factor4 := (z - sigma') / z;
    var factor3 := (sigma' - s' * factor4) / z;
    sigma' + s' * a0 * factor3
  }

  /** The most a pool can earn from the pot. */
  function MaxPool(pot: U64, stake: U64, totalStake: U64, pledge: U64, a0: Rational, nOpt: nat): U64
    requires totalStake > 0
  {
    if nOpt == 0 || 1.0 + a0 == 0.0 then
      WrapU64(MulDiv(pot, stake, totalStake) * 10 / 13)
    else
      FloorAsU64(Cap(pot, stake as real / totalStake as real, pledge as real / totalStake as real,
                     1.0 / nOpt as real, a0).Floor)
  }

  function Cap(pot: U64, sigma: Rational, s: Rational, z: Rational, a0: Rational): Rational
    requires z != 0.0 && 1.0 + a0 != 0.0
  {
    pot as real * Bracket(sigma, s, z, a0) / (1.0 + a0)
  }

  /** What a pool earns: its cap times its apparent performance, which is not capped at one. */
  function PoolTotal(
    maxPool: U64, blocks: U64, totalBlocks: U64, stake: U64, activeStake: U64): U64
  {
    if totalBlocks > 0 && stake > 0 then
      FloorShare(maxPool, blocks * activeStake, totalBlocks * stake)
    else
      maxPool
  }

  // The bound that keeps the pot solvent.

  lemma PledgeTermBound(sigma: real, s: real, z: real, a0: real)
    requires 0.0 <= sigma <= z && 0.0 <= s <= z && z > 0.0 && a0 >= 0.0
    ensures s * a0 * ((sigma - s * ((z - sigma) / z)) / z) <= sigma * a0
  {
    var factor4 := (z - sigma) / z;
    assert factor4 >= 0.0;
    var inner := sigma - s * factor4;
    assert inner <= sigma by {
      assert s * factor4 >= 0.0;
    }
    PledgeScale(sigma, s, z, a0, inner);
  }

  lemma PledgeScale(sigma: real, s: real, z: real, a0: real, inner: real)
    requires 0.0 <= sigma && 0.0 <= s <= z && z > 0.0 && a0 >= 0.0 && inner <= sigma
    ensures s * a0 * (inner / z) <= sigma * a0
  {
    var w := s / z;
    ProperFraction(s, z);
    assert s == w * z;
    assert inner / z * z == inner;
    assert s * (inner / z) == w * inner by {
      assert w * z * (inner / z) == w * inner;
    }
    assert w * inner <= sigma by {
      MulMono(inner, sigma, w);
      PartOf(sigma, w);
    }
    MulMono(w * inner, sigma, a0);
    assert s * a0 * (inner / z) == (s * (inner / z)) * a0;
  }

  lemma BracketBound(sigma: real, s: real, z: real, a0: real)
    requires 0.0 <= sigma && 0.0 <= s && z > 0.0 && a0 >= 0.0
    ensures Bracket(sigma, s, z, a0) <= sigma * (1.0 + a0)
  {
    var sigma', s' := AtMost(sigma, z), AtMost(s, z);
    PledgeTermBound(sigma', s', z, a0);
    MulMono(sigma', sigma, 1.0 + a0);
    assert sigma' * (1.0 + a0) == sigma' + sigma' * a0;
  }

  /** The cap is no more than the pot's share for the pool's stake. */
  lemma MaxPoolBound(pot: U64, stake: U64, totalStake: U64, pledge: U64, a0: Rational, nOpt: nat)
    requires totalStake > 0 && a0 >= 0.0
    ensures MaxPool(pot, stake, totalStake, pledge, a0, nOpt) * totalStake <= pot * stake
  {
    hide MulDiv, Cap;
    MulDivBounds(pot, stake, totalStake, MulDiv(pot, stake, totalStake));
    assert MaxPool(pot, stake, totalStake, pledge, a0, nOpt) <= MulDiv(pot, stake, totalStake) by {
      if nOpt == 0 {
        TenThirteenths(MulDiv(pot, stake, totalStake));
      } else {
        CapIsShare(pot, stake, totalStake, pledge as real / totalStake as real, 1.0 / nOpt as real, a0);
      }
    }
    MulMonoInt(MaxPool(pot, stake, totalStake, pledge, a0, nOpt), MulDiv(pot, stake, totalStake), totalStake);
  }

  lemma CapIsShare(pot: U64, stake: U64, totalStake: U64, s: real, z: real, a0: real)
    requires totalStake > 0 && 0.0 <= s && z > 0.0 && a0 >= 0.0
    ensures FloorAsU64(Cap(pot, stake as real / totalStake as real, s, z, a0).Floor) <= MulDiv(pot, stake, totalStake)
  {
    hide Bracket, FloorAsU64;
    var sigma := stake as real / totalStake as real;
    BracketBound(sigma, s, z, a0);
    ScaledDown(pot as real, Bracket(sigma, s, z, a0), sigma, 1.0 + a0);
    FloorOfShare(pot, stake, totalStake);
    FloorMonotone(Cap(pot, sigma, s, z, a0), pot as real * sigma);
    FloorNeverGains(Cap(pot, sigma, s, z, a0).Floor);
  }

  lemma TenThirteenths(q: nat)
    ensures WrapU64(q * 10 / 13) <= q
  {
  }

  lemma ScaledDown(pot: real, bracket: real, sigma: real, c: real)
    requires pot >= 0.0 && c > 0.0 && bracket <= sigma * c
    ensures pot * bracket / c <= pot * sigma
  {
    MulMono(bracket, sigma * c, pot);
    ScaleOrder(pot * bracket / c, pot * sigma, c);
    assert pot * bracket / c * c == pot * bracket;
    assert pot * sigma * c == pot * (sigma * c);
  }

  lemma FloorMonotone(x: real, y: real)
    requires x <= y
    ensures x.Floor <= y.Floor
  {
  }

  /**
   What a pool earns, measured against circulation: at most the pot's share for its
   blocks, scaled by how much of the circulation is active.
   */
  lemma PoolTotalBound(
    pot: U64, stake: U64, totalStake: U64, activeStake: U64, pledge: U64, a0: Rational, nOpt: nat,
    blocks: U64, totalBlocks: U64)
    requires 0 < totalStake && a0 >= 0.0
    requires 0 < blocks <= totalBlocks && 0 < stake
    ensures var maxPool := MaxPool(pot, stake, totalStake, pledge, a0, nOpt);
      PoolTotal(maxPool, blocks, totalBlocks, stake, activeStake) * (totalBlocks * totalStake)
      <= (pot * activeStake) * blocks
  {
    hide MaxPool, FloorShare;
    var maxPool := MaxPool(pot, stake, totalStake, pledge, a0, nOpt);
    MaxPoolBound(pot, stake, totalStake, pledge, a0, nOpt);
    FloorShareUpper(maxPool, blocks * activeStake, totalBlocks * stake);
    CancelStakes(PoolTotal(maxPool, blocks, totalBlocks, stake, activeStake), maxPool, pot, stake, totalStake,
                 activeStake, blocks, totalBlocks);
  }

  lemma CancelStakes(
    f: int, maxPool: int, pot: int, stake: int, totalStake: int, activeStake: int, blocks: int, totalBlocks: int)
    requires 0 < stake && 0 < totalStake && 0 <= activeStake && 0 < blocks
    requires maxPool * totalStake <= pot * stake
    requires f * (totalBlocks * stake) <= maxPool * (blocks * activeStake)
    ensures f * (totalBlocks * totalStake) <= (pot * activeStake) * blocks
  {
    var earned := blocks * activeStake;
    ScaleEarned(f, totalBlocks, stake, maxPool, earned, totalStake);
    MulMonoInt(maxPool * totalStake, pot * stake, earned);
    Regroup(pot, stake, blocks, activeStake);
    CancelWithin(f * (totalBlocks * totalStake), (pot * activeStake) * blocks, stake, (maxPool * totalStake) * earned);
  }

  lemma ScaleEarned(f: int, totalBlocks: int, stake: int, maxPool: int, earned: int, totalStake: int)
    requires 0 <= totalStake && f * (totalBlocks * stake) <= maxPool * earned
    ensures (f * (totalBlocks * totalStake)) * stake <= (maxPool * totalStake) * earned
  {
    MulMonoInt(f * (totalBlocks * stake), maxPool * earned, totalStake);
    SwapLast(f, totalBlocks, stake, totalStake);
    assert (maxPool * earned) * totalStake == (maxPool * totalStake) * earned;
  }

  lemma SwapLast(f: int, b: int, s: int, t: int)
    ensures (f * (b * s)) * t == (f * (b * t)) * s
  {
  }

  lemma Regroup(pot: int, stake: int, blocks: int, activeStake: int)
    ensures (pot * stake) * (blocks * activeStake) == ((pot * activeStake) * blocks) * stake
  {
  }

  // Sharing a pool's reward.

  /** Leader: the cost, and the floor of margin plus the owners' part of the rest. */
  function LeaderReward(f: U64, cost: U64, margin: Rational, ownerStake: U64, stake: U64): U64
    requires cost < f
  {
    WrapU64(cost + FloorPart(f - cost, LeaderTerm(margin, ownerStake, stake)))
  }

  function MemberReward(f: U64, cost: U64, margin: Rational, memberStake: U64, stake: U64): U64
    requires cost < f && stake > 0
  {
    FloorAsU64(Mul(AfterMargin(f, cost, margin), memberStake as real / stake as real).Floor)
  }

  function MemberRewards(
    f: U64, cost: U64, margin: Rational, members: map<Credential, Coin>, stake: U64): map<Credential, Coin>
    requires cost < f && stake > 0
  {
    map c | c in members :: MemberReward(f, cost, margin, members[c], stake)
  }

  /** What cost and margin leave for owners and members. */
  function AfterMargin(f: U64, cost: U64, margin: Rational): Rational
    requires cost < f
  {
    Mul((f - cost) as real, 1.0 - margin)
  }

  lemma MemberUpper(f: U64, cost: U64, margin: Rational, t: U64, stake: U64)
    requires cost < f && 0.0 <= margin <= 1.0 && stake > 0
    ensures 0.0 <= AfterMargin(f, cost, margin)
    ensures Mul(MemberReward(f, cost, margin, t, stake) as real, stake as real)
         <= Mul(AfterMargin(f, cost, margin), t as real)
  {
    MulMono(0.0, 1.0 - margin, (f - cost) as real);
    hide FloorAsU64, Mul;
    RealShareFloor(AfterMargin(f, cost, margin), t as real, stake as real);
  }

  /** A floored share of a real amount, times the whole, is at most the amount times the part. */
  lemma RealShareFloor(g: real, t: real, stake: real)
    requires g >= 0.0 && t >= 0.0 && stake > 0.0
    ensures Mul(FloorAsU64(Mul(g, t / stake).Floor) as real, stake) <= Mul(g, t)
  {
    assert t / stake >= 0.0;
    assert Mul(t / stake, stake) == t;
    hide Mul, FloorAsU64;
    MulNonNegative(g, t / stake);
    MulAssociates(g, t / stake, stake);
    FloorBelow(Mul(g, t / stake));
    MulOrder(FloorAsU64(Mul(g, t / stake).Floor) as real, Mul(g, t / stake), stake);
  }

  lemma NonNegativeShare(g: real, t: real, stake: real)
    requires g >= 0.0 && t >= 0.0 && stake > 0.0
    ensures g * (t / stake) >= 0.0
  {
    assert t / stake >= 0.0;
    MulMono(0.0, t / stake, g);
  }

  lemma FloorBelow(y: real)
    requires y >= 0.0
    ensures FloorAsU64(y.Floor) as real <= y
  {
  }

  function LeaderTerm(margin: Rational, ownerStake: U64, stake: U64): Rational {
    margin + (1.0 - margin) * RatioOrZero(ownerStake, stake)
  }

  lemma LeaderTermBound(margin: real, ownerStake: U64, stake: U64)
    requires 0.0 <= margin <= 1.0 && stake > 0
    ensures 0.0 <= LeaderTerm(margin, ownerStake, stake)
    ensures Mul(LeaderTerm(margin, ownerStake, stake), stake as real)
         == margin * stake as real + (1.0 - margin) * ownerStake as real
  {
    NonNegativeShare(1.0 - margin, ownerStake as real, stake as real);
    ShareTimesDenominator(1.0 - margin, ownerStake as real, stake as real);
    SplitProduct(margin, (1.0 - margin) * (ownerStake as real / stake as real), stake as real);
  }

  lemma SplitProduct(a: real, b: real, c: real)
    ensures Mul(a + b, c) == a * c + b * c
  {
  }

  /** The margin of the whole, and the owners' part of the rest. */
  function OwnersPart(g: nat, margin: Rational, stake: nat, ownerStake: int): Rational {
    Mul(g as real, margin * stake as real + (1.0 - margin) * ownerStake as real)
  }

  lemma LeaderUpper(g: U64, margin: real, ownerStake: U64, stake: U64)
    requires 0.0 <= margin <= 1.0 && stake > 0
    ensures Mul(FloorPart(g, LeaderTerm(margin, ownerStake, stake)) as real, stake as real)
         <= OwnersPart(g, margin, stake, ownerStake)
  {
    var w := LeaderTerm(margin, ownerStake, stake);
    LeaderTermBound(margin, ownerStake, stake);
    hide LeaderTerm, Mul, FloorAsU64;
    MulNonNegative(g as real, w);
    MulAssociates(g as real, w, stake as real);
    FloorBelow(Mul(g as real, w));
    MulOrder(FloorPart(g, w) as real, Mul(g as real, w), stake as real);
  }

  /** Together the members take at most their stakes' part of what the margin leaves. */
  lemma {:induction false} MembersUpper(
    f: U64, cost: U64, margin: Rational, members: map<Credential, Coin>, stake: U64)
    requires cost < f && 0.0 <= margin <= 1.0 && stake > 0
    ensures Mul(Sum(MemberRewards(f, cost, margin, members, stake)) as real, stake as real)
         <= Mul(AfterMargin(f, cost, margin), Sum(members) as real)
    decreases |members|
  {
    hide MemberReward, MemberRewards, Mul, AfterMargin, Sum;
    if members == map[] {
      NoMembers(f, cost, margin, members, stake);
    } else {
      var c := Pick(members);
      MemberRewardsStep(f, cost, margin, members, stake, c);
      MembersUpper(f, cost, margin, members - {c}, stake);
      MemberUpper(f, cost, margin, members[c], stake);
      AddBounds(
        MemberReward(f, cost, margin, members[c], stake),
        Sum(MemberRewards(f, cost, margin, members - {c}, stake)), stake as real,
        AfterMargin(f, cost, margin), members[c], Sum(members - {c}));
    }
  }

  lemma NoMembers(f: U64, cost: U64, margin: Rational, members: map<Credential, Coin>, stake: U64)
    requires cost < f && stake > 0 && members == map[]
    ensures Mul(Sum(MemberRewards(f, cost, margin, members, stake)) as real, stake as real) == 0.0
    ensures Mul(AfterMargin(f, cost, margin), Sum(members) as real) == 0.0
  {
    hide AfterMargin;
    assert MemberRewards(f, cost, margin, members, stake) == map[];
  }

  lemma AddBounds(q: int, qs: int, stake: real, g: real, t: int, ts: int)
    requires Mul(q as real, stake) <= Mul(g, t as real) && Mul(qs as real, stake) <= Mul(g, ts as real)
    ensures Mul((q + qs) as real, stake) <= Mul(g, (t + ts) as real)
  {
  }

  lemma MemberRewardsStep(
    f: U64, cost: U64, margin: Rational, members: map<Credential, Coin>, stake: U64, c: Credential)
    requires cost < f && stake > 0 && c in members
    ensures |members - {c}| < |members|
    ensures Sum(members) == members[c] + Sum(members - {c})
    ensures Sum(MemberRewards(f, cost, margin, members, stake))
         == MemberReward(f, cost, margin, members[c], stake)
            + Sum(MemberRewards(f, cost, margin, members - {c}, stake))
  {
    hide MemberReward;
    assert (members - {c}).Keys == members.Keys - {c};
    RewardsRemove(f, cost, margin, members, stake, c);
    SumRemove(members, c);
    SumRemove(MemberRewards(f, cost, margin, members, stake), c);
  }

  lemma RewardsRemove(
    f: U64, cost: U64, margin: Rational, members: map<Credential, Coin>, stake: U64, c: Credential)
    requires cost < f && stake > 0 && c in members
    ensures MemberRewards(f, cost, margin, members, stake) - {c}
         == MemberRewards(f, cost, margin, members - {c}, stake)
  {
    hide MemberReward;
  }

  /** Leader and members never take more than the pool earned. */
  lemma SharesWithinReward(
    f: U64, cost: U64, margin: Rational, ownerStake: U64, members: map<Credential, Coin>, stake: U64)
    requires cost < f && 0.0 <= margin <= 1.0 && stake > 0
    requires ownerStake + Sum(members) <= stake
    ensures LeaderReward(f, cost, margin, ownerStake, stake)
            + Sum(MemberRewards(f, cost, margin, members, stake)) <= f
  {
    hide FloorPart, MemberReward, MemberRewards, LeaderTerm, Mul, OwnersPart;
    LeaderUpper(f - cost, margin, ownerStake, stake);
    MembersUpper(f, cost, margin, members, stake);
    TakeAtMostAll(f - cost, margin, stake, ownerStake, Sum(members),
                  FloorPart(f - cost, LeaderTerm(margin, ownerStake, stake)),
                  Sum(MemberRewards(f, cost, margin, members, stake)));
    SumBounds(MemberRewards(f, cost, margin, members, stake));
  }

  lemma TakeAtMostAll(g: nat, margin: real, stake: nat, owner: int, others: int, leader: int, paid: int)
    requires 0.0 <= margin <= 1.0 && stake > 0 && owner + others <= stake
    requires Mul(leader as real, stake as real)
          <= OwnersPart(g, margin, stake, owner)
    requires Mul(paid as real, stake as real) <= Mul(Mul(g as real, 1.0 - margin), others as real)
    ensures leader + paid <= g
  {
    var s, x := stake as real, g as real * (1.0 - margin);
    MulMono(0.0, 1.0 - margin, g as real);
    MulMono((owner + others) as real, s, x);
    SpreadWhole(g as real, margin, s, owner as real, others as real);
    AddedUp(leader, paid, s);
    ScaleOrder((leader + paid) as real, g as real, s);
  }

  lemma AddedUp(a: int, b: int, s: real)
    ensures (a + b) as real * s == Mul(a as real, s) + Mul(b as real, s)
  {
  }

  lemma SpreadWhole(g: real, m: real, s: real, owner: real, others: real)
    requires (owner + others) * (g * (1.0 - m)) <= s * (g * (1.0 - m))
    ensures g * (m * s + (1.0 - m) * owner) + Mul(Mul(g, 1.0 - m), others) <= g * s
  {
  }
}
