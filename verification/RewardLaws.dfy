/**
 The reward formula over the integers (crates/ade_ledger/src/rules.rs): every amount the
 calculation hands out is the floor of one fraction, stated without the rationals it is
 computed with.
 */
module RewardLaws {
  import opened LedgerTypes
  import opened Rationals
  import opened Sums
  import opened Snapshots
  import opened RewardFormula
  import opened RewardUpdates
  import opened EpochBoundary

  /** `q` is `num / den`, rounded down. */
  predicate IsFloor(q: int, num: int, den: int) {
    den > 0 && q * den <= num < (q + 1) * den
  }

  lemma FloorOf(y: Rational, num: int, den: int)
    requires den > 0 && Mul(y, den as real) == num as real
    ensures IsFloor(y.Floor, num, den)
  {
    var q := y.Floor;
    ScaleOrder(q as real, y, den as real);
    ScaleOrder(y, q as real + 1.0, den as real);
    ProductOfCasts(q, den);
    ProductOfCasts(q + 1, den);
  }

  /** A floor is at most any whole amount its fraction is within, and not negative if the fraction is not. */
  lemma FloorBounds(q: int, num: int, den: int, cap: int)
    requires IsFloor(q, num, den) && 0 <= num <= cap * den
    ensures 0 <= q <= cap
  {
    CancelFactor(q, cap, den);
    CancelFactor(0, q + 1, den);
  }

  lemma FloorIsUnique(q: int, r: int, num: int, den: int)
    requires IsFloor(q, num, den) && IsFloor(r, num, den)
    ensures q == r
  {
    CancelFactor(q, r + 1, den);
    CancelFactor(r, q + 1, den);
  }

  // Sharing what a pool earned.

  /** The pool's margin as a fraction; a zero denominator counts as no margin. */
  function MarginTerms(params: SnapshotPoolParams): (nat, nat) {
    if params.margin.1 == 0 then (0, 1) else params.margin
  }

  lemma MarginIsFraction(params: SnapshotPoolParams)
    ensures var (m0, m1) := MarginTerms(params);
      m1 > 0 && Mul(Margin(params), m1 as real) == m0 as real
    ensures ProportionalMargin(params) ==> MarginTerms(params).0 <= MarginTerms(params).1
  {
  }

  lemma MemberFraction(g: int, m0: int, m1: int, t: int, s: int, m: real)
    requires s > 0 && Mul(m, m1 as real) == m0 as real
    ensures Mul(Mul(Mul(g as real, 1.0 - m), t as real / s as real), (s * m1) as real)
         == (g * (m1 - m0) * t) as real
  {
    var x, y := 1.0 - m, t as real / s as real;
    assert x * m1 as real == (m1 - m0) as real;
    assert y * s as real == t as real;
    ProductOfCasts(s, m1);
    ProductOfCasts(g, m1 - m0);
    ProductOfCasts(g * (m1 - m0), t);
    Regroup4(g as real, x, y, s as real, m1 as real);
  }

  lemma Regroup4(g: real, x: real, y: real, s: real, m: real)
    ensures ((g * x) * y) * (s * m) == (g * (x * m)) * (y * s)
  {
  }

  lemma MemberIsFloor(f: U64, cost: U64, margin: Rational, m0: nat, m1: nat, t: U64, stake: U64)
    requires cost < f && stake > 0 && m0 <= m1 && 0 < m1 && Mul(margin, m1 as real) == m0 as real && t <= stake
    ensures IsFloor(MemberReward(f, cost, margin, t, stake), (f - cost) * (m1 - m0) * t, stake * m1)
  {
    var y := Mul(AfterMargin(f, cost, margin), t as real / stake as real);
    MemberFraction(f - cost, m0, m1, t, stake, margin);
    ProductIsPositive(stake, m1);
    FloorOf(y, (f - cost) * (m1 - m0) * t, stake * m1);
    PartWithin(f - cost, m1 - m0, m1, t, stake);
    FloorBounds(y.Floor, (f - cost) * (m1 - m0) * t, stake * m1, f - cost);
  }

  lemma ProductIsPositive(a: int, b: int)
    requires a > 0 && b > 0
    ensures a * b > 0
  {
  }

  lemma PartWithin(g: nat, w: nat, m1: nat, t: nat, stake: nat)
    requires w <= m1 && t <= stake
    ensures 0 <= g * w * t <= g * (stake * m1)
  {
    MulMonoInt(w, m1, t);
    MulMonoInt(t, stake, m1);
    MulMonoInt(w * t, stake * m1, g);
    assert g * w * t == (w * t) * g;
  }

  lemma LeaderFraction(g: int, m0: int, m1: int, o: int, s: int, m: real)
    requires s > 0 && Mul(m, m1 as real) == m0 as real
    ensures Mul(Mul(g as real, m + (1.0 - m) * (o as real / s as real)), (s * m1) as real)
         == (g * (m0 * s + (m1 - m0) * o)) as real
  {
    var x, y := 1.0 - m, o as real / s as real;
    assert x * m1 as real == (m1 - m0) as real;
    assert y * s as real == o as real;
    ProductOfCasts(s, m1);
    ProductOfCasts(m0, s);
    ProductOfCasts(m1 - m0, o);
    ProductOfCasts(g, m0 * s + (m1 - m0) * o);
    Regroup5(g as real, m, x, y, s as real, m1 as real);
  }

  lemma Regroup5(g: real, m: real, x: real, y: real, s: real, d: real)
    ensures (g * (m + x * y)) * (s * d) == g * ((m * d) * s + (x * d) * (y * s))
  {
  }

  /** The leader's share beyond the cost. */
  lemma LeaderIsFloor(f: U64, cost: U64, margin: Rational, m0: nat, m1: nat, owner: U64, stake: U64)
    requires cost < f && stake > 0 && m0 <= m1 && 0 < m1 && Mul(margin, m1 as real) == m0 as real && owner <= stake
    ensures IsFloor(LeaderReward(f, cost, margin, owner, stake) - cost,
                    (f - cost) * (m0 * stake + (m1 - m0) * owner), stake * m1)
  {
    var g := f - cost;
    var y, num := Mul(g as real, LeaderTerm(margin, owner, stake)), g * (m0 * stake + (m1 - m0) * owner);
    LeaderFraction(g, m0, m1, owner, stake, margin);
    ProductIsPositive(stake, m1);
    FloorOf(y, num, stake * m1);
    LeaderWithin(g, m0, m1, owner, stake);
    FloorBounds(y.Floor, num, stake * m1, g);
  }

  lemma LeaderWithin(g: nat, m0: nat, m1: nat, owner: nat, stake: nat)
    requires m0 <= m1 && owner <= stake
    ensures 0 <= g * (m0 * stake + (m1 - m0) * owner) <= g * (stake * m1)
  {
    var x := m0 * stake + (m1 - m0) * owner;
    MixWithin(m0, m1, owner, stake);
    GTimes(g, x, stake * m1);
  }

  lemma MixWithin(m0: nat, m1: nat, owner: nat, stake: nat)
    requires m0 <= m1 && owner <= stake
    ensures 0 <= m0 * stake + (m1 - m0) * owner <= stake * m1
  {
    MulMonoInt(owner, stake, m1 - m0);
    Distribute(stake, m0, m1 - m0);
  }

  lemma GTimes(g: nat, x: int, y: int)
    requires 0 <= x <= y
    ensures 0 <= g * x <= g * y
  {
  }

  // What flooring leaves over.

  lemma {:induction false} FloorsLoseLittle(
    ts: map<Credential, Coin>, qs: map<Credential, Coin>, w: nat, den: nat)
    requires ts.Keys == qs.Keys && forall c :: c in ts ==> IsFloor(qs[c], w * ts[c], den)
    ensures w * Sum(ts) <= den * (Sum(qs) + |ts|)
    decreases |ts|
  {
    hide IsFloor, Sum;
    if ts == map[] {
      NothingToLose(ts, qs, w, den);
    } else {
      var c := Pick(ts);
      SumRemove(ts, c);
      SumRemove(qs, c);
      assert (ts - {c}).Keys == ts.Keys - {c} && (qs - {c}).Keys == qs.Keys - {c};
      assert forall k :: k in ts - {c} ==> (ts - {c})[k] == ts[k] && (qs - {c})[k] == qs[k];
      FloorsLoseLittle(ts - {c}, qs - {c}, w, den);
      AddFloor(w, den, ts[c], qs[c], Sum(ts - {c}), Sum(qs - {c}), |ts - {c}|);
    }
  }

  lemma NothingToLose(ts: map<Credential, Coin>, qs: map<Credential, Coin>, w: nat, den: nat)
    requires ts == map[] && qs.Keys == {}
    ensures w * Sum(ts) <= den * (Sum(qs) + |ts|)
  {
    assert qs == map[];
  }

  lemma AddFloor(w: int, den: int, t: int, q: int, ts: int, qs: int, n: int)
    requires IsFloor(q, w * t, den) && w * ts <= den * (qs + n)
    ensures w * (t + ts) <= den * ((q + qs) + (n + 1))
  {
    Distribute(w, t, ts);
    Distribute(den, q + 1, qs + n);
  }

  lemma LeftOver(g: nat, m0: nat, m1: nat, owner: nat, others: nat, stake: nat, leader: int, paid: int, n: nat)
    requires m0 <= m1 && 0 < stake * m1 && owner + others == stake
    requires IsFloor(leader, g * (m0 * stake + (m1 - m0) * owner), stake * m1)
    requires (g * (m1 - m0)) * others <= (stake * m1) * (paid + n)
    ensures g <= leader + paid + n
  {
    var den := stake * m1;
    Whole(g, m0, m1, owner, others, stake);
    Distribute(den, leader + 1, paid + n);
    CancelFactor(g, leader + 1 + paid + n, den);
  }

  lemma Whole(g: int, m0: int, m1: int, owner: int, others: int, stake: int)
    requires owner + others == stake
    ensures g * (m0 * stake + (m1 - m0) * owner) + (g * (m1 - m0)) * others == g * (stake * m1)
  {
    var w := m1 - m0;
    Distribute(w, owner, others);
    Distribute(g, m0 * stake + w * owner, w * others);
    assert (g * w) * others == g * (w * others);
  }

  // One pool's payout.

  /** The delegated stake of the pool's owners, as key credentials. */
  function Owned(v: PotView, p: PoolId, owners: set<Hash28>): map<Credential, Coin> {
    map c | c in v.go.delegations && v.go.delegations[c].0 == p && c.KeyHash? && c.hash in owners ::
      v.go.delegations[c].1
  }

  function NotOwned(v: PotView, p: PoolId, owners: set<Hash28>): map<Credential, Coin> {
    map c | c in v.go.delegations && v.go.delegations[c].0 == p && !(c.KeyHash? && c.hash in owners) ::
      v.go.delegations[c].1
  }

  /** Members and leader get the floors of their fractions, and flooring leaves less than one lovelace each. */
  ghost predicate SharedOut(
    r: Payout, total: Coin, params: SnapshotPoolParams, stake: Coin, owned: int, members: map<Credential, Coin>)
  {
    var (m0, m1) := MarginTerms(params);
    && r.Paid?
    && (total <= params.cost ==> r == Paid(total, map[]))
    && (params.cost < total ==>
          && r.members.Keys == members.Keys
          && (forall c :: c in r.members ==>
                IsFloor(r.members[c], (total - params.cost) * (m1 - m0) * members[c], stake * m1))
          && IsFloor(r.leader - params.cost, (total - params.cost) * (m0 * stake + (m1 - m0) * owned), stake * m1)
          && total - |members| - 1 < PaidOut(r) <= total)
  }

  lemma ShareOutIsExact(
    total: Coin, params: SnapshotPoolParams, owned: Coin, members: map<Credential, Coin>, stake: Coin)
    requires ProportionalMargin(params) && stake > 0 && owned + Sum(members) == stake
    ensures SharedOut(ShareOut(total, params, owned, members, stake), total, params, stake, owned, members)
  {
    hide MemberRewards, LeaderReward, MarginTerms, Margin, IsFloor, Sum;
    MarginIsFraction(params);
    MarginIsProportion(params);
    if params.cost < total {
      MembersAreFloors(total, params, members, stake);
      SumBounds(members);
      var (m0, m1) := MarginTerms(params);
      LeaderIsFloor(total, params.cost, Margin(params), m0, m1, owned, stake);
      ShareOutBound(total, params, owned, members, stake);
      LittleIsLeft(total, params, owned, members, stake);
    } else {
      PaidOutIs(total, map[]);
    }
  }

  lemma MembersAreFloors(total: Coin, params: SnapshotPoolParams, members: map<Credential, Coin>, stake: Coin)
    requires ProportionalMargin(params) && params.cost < total && 0 < stake && Sum(members) <= stake
    ensures var rs, (m0, m1) := MemberRewards(total, params.cost, Margin(params), members, stake), MarginTerms(params);
      && rs.Keys == members.Keys
      && forall c :: c in members ==> IsFloor(rs[c], (total - params.cost) * (m1 - m0) * members[c], stake * m1)
  {
    hide MemberReward, MarginTerms, Margin, IsFloor, Sum;
    MarginIsFraction(params);
    SumBounds(members);
    var (m0, m1) := MarginTerms(params);
    forall c | c in members
      ensures IsFloor(MemberReward(total, params.cost, Margin(params), members[c], stake),
                      (total - params.cost) * (m1 - m0) * members[c], stake * m1)
    {
      MemberIsFloor(total, params.cost, Margin(params), m0, m1, members[c], stake);
    }
  }

  lemma LittleIsLeft(
    total: Coin, params: SnapshotPoolParams, owned: Coin, members: map<Credential, Coin>, stake: Coin)
    requires ProportionalMargin(params) && params.cost < total && 0 < stake && owned + Sum(members) == stake
    ensures total - |members| - 1 < PaidOut(ShareOut(total, params, owned, members, stake))
  {
    hide MemberRewards, LeaderReward, MarginTerms, Margin, IsFloor, Sum;
    MarginIsFraction(params);
    SumBounds(members);
    var (m0, m1) := MarginTerms(params);
    var g, leader := total - params.cost, LeaderReward(total, params.cost, Margin(params), owned, stake);
    var rs := MemberRewards(total, params.cost, Margin(params), members, stake);
    LeaderIsFloor(total, params.cost, Margin(params), m0, m1, owned, stake);
    MembersAreFloors(total, params, members, stake);
    ProductIsPositive(stake, m1);
    FloorsLoseLittle(members, rs, g * (m1 - m0), stake * m1);
    LeftOver(g, m0, m1, owned, Sum(members), stake, leader - params.cost, Sum(rs), |members|);
    PaidOutIs(leader, rs);
  }

  lemma PaidOutIs(leader: Coin, members: map<Credential, Coin>)
    ensures PaidOut(Paid(leader, members)) == leader + Sum(members)
  {
  }

  lemma OwnersAreOwned(v: PotView, p: PoolId, params: SnapshotPoolParams)
    ensures OwnerStakes(v.go, p, params) == Owned(v, p, params.selfDelegatedOwners)
    ensures MemberStakes(v.go, p, params) == NotOwned(v, p, params.selfDelegatedOwners)
  {
  }

  /**
   Which pools are paid: those with blocks and frozen parameters that earned something
   and whose owners delegate their pledge to it.
   */
  lemma PaidIff(v: PotView, p: PoolId)
    requires Regular(v) && v.totalStake > 0 && p in v.go.poolStakes
    ensures PoolPayout(v, p).MissingParams? <==> GetOr(v.blocks, p) > 0 && p !in v.go.poolParams
    ensures PoolPayout(v, p).Paid? <==>
              && GetOr(v.blocks, p) > 0 && p in v.go.poolParams
              && v.go.poolParams[p].pledge <= Sum(Owned(v, p, v.go.poolParams[p].selfDelegatedOwners))
              && EarnedBy(v, p) > 0
  {
    hide MaxPool, ShareOut;
    ShareOutPays();
    if p in v.go.poolParams {
      OwnersAreOwned(v, p, v.go.poolParams[p]);
      SumBounds(OwnerStakes(v.go, p, v.go.poolParams[p]));
      NothingFromNothing(GetOr(v.blocks, p) * v.activeStake, v.totalBlocks * v.go.poolStakes[p]);
    }
  }

  lemma ShareOutPays()
    ensures forall total, params, ownerStake, members, stake ::
              ShareOut(total, params, ownerStake, members, stake).Paid?
  {
  }

  lemma NothingFromNothing(b: nat, c: nat)
    ensures c > 0 ==> FloorShare(0, b, c) == 0
  {
  }

  /** What a paid pool hands out, over the integers. */
  lemma PayoutIsExact(v: PotView, p: PoolId)
    requires Regular(v) && v.totalStake > 0 && p in v.go.poolStakes && PoolPayout(v, p).Paid?
    ensures p in v.go.poolParams
    ensures var params := v.go.poolParams[p];
      SharedOut(PoolPayout(v, p), EarnedBy(v, p), params, v.go.poolStakes[p],
                Sum(Owned(v, p, params.selfDelegatedOwners)), NotOwned(v, p, params.selfDelegatedOwners))
  {
    hide MaxPool, PoolTotal, ShareOut, SharedOut;
    PaidPool(v, p);
    var params := v.go.poolParams[p];
    OwnersAndMembers(v.go, p, params);
    OwnersAreOwned(v, p, params);
    SumBounds(MemberStakes(v.go, p, params));
    ShareOutIsExact(EarnedBy(v, p), params, Sum(OwnerStakes(v.go, p, params)), MemberStakes(v.go, p, params),
                    v.go.poolStakes[p]);
  }

  // The cap on a pool's reward.

  /** A stake capped at one k-th of the circulation, in units of that k-th part. */
  function Capped(stake: nat, k: nat, totalStake: nat): nat {
    Min(k * stake, totalStake)
  }

  /**
   With sigma' = s / (k T) and the pledge p / (k T), both capped at saturation, the pot's
   share is pot (d s T^2 + n p (s T - p (T - s))) over k T^3 (d + n), for a pledge
   influence of n / d.
   */
  function CapNumerator(pot: nat, s: nat, p: nat, t: nat, n: nat, d: nat): int {
    pot * (d * s * t * t + n * p * (s * t - p * (t - s)))
  }

  function CapDenominator(k: nat, t: nat, n: nat, d: nat): nat {
    k * t * t * t * (d + n)
  }

  lemma CappedShare(stake: nat, k: nat, t: nat)
    requires 0 < k && 0 < t
    ensures AtMost(stake as real / t as real, 1.0 / k as real) * (k * t) as real == Capped(stake, k, t) as real
  {
    var x, z := stake as real / t as real, 1.0 / k as real;
    assert x * t as real == stake as real && z * k as real == 1.0;
    ProductOfCasts(k, t);
    ProductOfCasts(k, stake);
    assert x * (k * t) as real == (k * stake) as real;
    assert z * (k * t) as real == t as real;
    ProductIsPositive(k, t);
    ScaleOrder(z, x, (k * t) as real);
  }

  /** The saturation bracket, cleared of its denominators one at a time. */
  lemma BracketFraction(sigma: real, pl: real, z: real, a0: real, s: real, p: real, k: real, t: real)
    requires k > 0.0 && t > 0.0 && z * k == 1.0 && z > 0.0
    requires AtMost(sigma, z) * (k * t) == s && AtMost(pl, z) * (k * t) == p
    ensures Bracket(sigma, pl, z, a0) * (k * t * t * t) == s * t * t + a0 * p * (s * t - p * (t - s))
  {
    var x, y := AtMost(sigma, z), AtMost(pl, z);
    var f4 := (z - x) / z;
    ByInverse(z - x, z, k);
    assert f4 * t == t - s by {
      Factor4(x, z, k, t);
    }
    var f3 := (x - y * f4) / z;
    ByInverse(x - y * f4, z, k);
    Factor3(x, y, f4, k, t, s, p);
    Final(x, y, a0, f3, k, t, s, p);
  }

  lemma ByInverse(x: real, z: real, k: real)
    requires z > 0.0 && z * k == 1.0
    ensures x / z == x * k
  {
    var y := x / z;
    assert y * z == x;
    assert y * z * k == y * (z * k);
  }

  lemma Factor4(x: real, z: real, k: real, t: real)
    requires z * k == 1.0
    ensures ((z - x) * k) * t == t - x * (k * t)
  {
    assert (z - x) * k == 1.0 - x * k;
  }

  lemma Factor3(x: real, y: real, f4: real, k: real, t: real, s: real, p: real)
    requires x * (k * t) == s && y * (k * t) == p && f4 * t == t - s
    ensures ((x - y * f4) * k) * t * t == s * t - p * (t - s)
  {
    assert ((x - y * f4) * k) * t * t == (x * (k * t)) * t - (y * (k * t)) * (f4 * t);
  }

  lemma Final(x: real, y: real, a0: real, f3: real, k: real, t: real, s: real, p: real)
    requires x * (k * t) == s && y * (k * t) == p && f3 * t * t == s * t - p * (t - s)
    ensures (x + y * a0 * f3) * (k * t * t * t) == s * t * t + a0 * p * (s * t - p * (t - s))
  {
    assert (x + y * a0 * f3) * (k * t * t * t) == (x * (k * t)) * t * t + a0 * (y * (k * t)) * (f3 * t * t);
  }

  lemma CapFraction(
    pot: U64, stake: nat, pledge: nat, t: nat, a0: real, n: nat, d: nat, k: nat, sigma: real, pl: real, z: real)
    requires a0 >= 0.0 && z > 0.0 && 0 < t && 0 < k && Mul(a0, d as real) == n as real
    requires sigma == stake as real / t as real && pl == pledge as real / t as real && z == 1.0 / k as real
    ensures Mul(Cap(pot, sigma, pl, z, a0), CapDenominator(k, t, n, d) as real)
         == CapNumerator(pot, Capped(stake, k, t), Capped(pledge, k, t), t, n, d) as real
  {
    hide Cap, CapNumerator, CapDenominator, Capped, Bracket, AtMost;
    var s, p := Capped(stake, k, t), Capped(pledge, k, t);
    CappedShare(stake, k, t);
    CappedShare(pledge, k, t);
    ProductOfCasts(k, t);
    assert z * k as real == 1.0;
    BracketFraction(sigma, pl, z, a0, s as real, p as real, k as real, t as real);
    WeightedCap(pot, sigma, pl, z, a0, s, p, k, t, n, d);
    CastDenominator(k, t, n, d);
    CastNumerator(pot, s, p, t, n, d);
  }

  lemma WeightedCap(
    pot: U64, sigma: real, pl: real, z: real, a0: real, s: nat, p: nat, k: nat, t: nat, n: nat, d: nat)
    requires a0 >= 0.0 && z > 0.0 && Mul(a0, d as real) == n as real
    requires Bracket(sigma, pl, z, a0) * (k as real * t as real * t as real * t as real)
          == s as real * t as real * t as real
             + a0 * p as real * (s as real * t as real - p as real * (t as real - s as real))
    ensures Mul(Cap(pot, sigma, pl, z, a0), k as real * t as real * t as real * t as real * (d as real + n as real))
         == pot as real * (d as real * s as real * t as real * t as real
                           + n as real * p as real * (s as real * t as real - p as real * (t as real - s as real)))
  {
    hide Bracket;
    Weighted(pot as real, Bracket(sigma, pl, z, a0), a0, s as real, p as real, k as real, t as real, n as real,
             d as real);
  }

  lemma Weighted(pot: real, b: real, a0: real, s: real, p: real, k: real, t: real, n: real, d: real)
    requires b * (k * t * t * t) == s * t * t + a0 * p * (s * t - p * (t - s))
    requires a0 * d == n && a0 >= 0.0
    ensures (pot * b / (1.0 + a0)) * (k * t * t * t * (d + n)) == pot * (d * s * t * t + n * p * (s * t - p * (t - s)))
  {
    var cap, den, w := pot * b / (1.0 + a0), k * t * t * t, s * t - p * (t - s);
    assert cap * (1.0 + a0) == pot * b;
    assert d + n == (1.0 + a0) * d;
    Together(cap, 1.0 + a0, d, den, pot, b);
    Spread(pot, d, s, t, a0, p, w, n);
  }

  lemma Together(cap: real, c: real, d: real, den: real, pot: real, b: real)
    requires cap * c == pot * b
    ensures cap * (den * (c * d)) == pot * (d * (b * den))
  {
    assert cap * (den * (c * d)) == (cap * c) * (den * d);
  }

  lemma Spread(pot: real, d: real, s: real, t: real, a0: real, p: real, w: real, n: real)
    requires a0 * d == n
    ensures pot * (d * (s * t * t + a0 * p * w)) == pot * (d * s * t * t + n * p * w)
  {
    assert d * (a0 * p * w) == (a0 * d) * p * w;
  }

  lemma CastDenominator(k: nat, t: nat, n: nat, d: nat)
    ensures CapDenominator(k, t, n, d) as real
         == k as real * t as real * t as real * t as real * (d as real + n as real)
  {
    ProductOfCasts(k, t);
    ProductOfCasts(k * t, t);
    ProductOfCasts(k * t * t, t);
    ProductOfCasts(k * t * t * t, d + n);
  }

  lemma CastNumerator(pot: nat, s: nat, p: nat, t: nat, n: nat, d: nat)
    ensures CapNumerator(pot, s, p, t, n, d) as real
         == pot as real * (d as real * s as real * t as real * t as real
                           + n as real * p as real * (s as real * t as real - p as real * (t as real - s as real)))
  {
    ProductOfCasts(d, s);
    ProductOfCasts(d * s, t);
    ProductOfCasts(d * s * t, t);
    ProductOfCasts(n, p);
    ProductOfCasts(s, t);
    ProductOfCasts(p, t - s);
    ProductOfCasts(n * p, s * t - p * (t - s));
    ProductOfCasts(pot, d * s * t * t + n * p * (s * t - p * (t - s)));
  }

  lemma CapWithinPot(pot: nat, s: nat, p: nat, k: nat, t: nat, n: nat, d: nat)
    requires s <= t && p <= t && 0 < k
    ensures CapNumerator(pot, s, p, t, n, d) <= pot * CapDenominator(k, t, n, d)
  {
    hide CapDenominator;
    var x, y := d * s * t * t, n * p * (s * t - p * (t - s));
    ThreeFactors(d, s, t);
    PledgePart(n, p, s, t);
    WithinDenominator(x, y, k, t, n, d);
    TimesPot(x + y, CapDenominator(k, t, n, d), pot);
  }

  lemma TimesPot(x: int, y: int, pot: nat)
    requires x <= y
    ensures pot * x <= pot * y
  {
  }

  lemma WithinDenominator(x: int, y: int, k: nat, t: nat, n: nat, d: nat)
    requires 0 < k && x <= (t * t * t) * d && y <= (t * t * t) * n
    ensures x + y <= CapDenominator(k, t, n, d)
  {
    var c := t * t * t;
    Distribute(c, d, n);
    MulMonoInt(1, k, c * (d + n));
    DenominatorIs(k, t, n, d);
  }

  lemma DenominatorIs(k: nat, t: nat, n: nat, d: nat)
    ensures CapDenominator(k, t, n, d) == ((t * t * t) * (d + n)) * k
  {
    assert k * t * t * t == k * (t * t * t);
  }

  lemma ThreeFactors(d: nat, s: nat, t: nat)
    requires s <= t
    ensures d * s * t * t <= (t * t * t) * d
  {
    MulMonoInt(s, t, d * t * t);
    assert d * s * t * t == s * (d * t * t);
    assert (t * t * t) * d == t * (d * t * t);
  }

  lemma PledgePart(n: nat, p: nat, s: nat, t: nat)
    requires s <= t && p <= t
    ensures n * p * (s * t - p * (t - s)) <= (t * t * t) * n
  {
    var w := s * t - p * (t - s);
    MulMonoInt(0, t - s, p);
    MulMonoInt(s, t, t);
    MulMonoInt(w, t * t, n * p);
    MulMonoInt(p, t, n * (t * t));
    assert n * p * (t * t) == p * (n * (t * t));
    assert (t * t * t) * n == t * (n * (t * t));
  }

  /**
   The cap, for every stake, pledge, influence n / d and desired number of pools k: the
   floor of one integer fraction, or nothing where the pledge term makes it negative.
   */
  lemma MaxPoolIsExact(pot: U64, stake: U64, totalStake: U64, pledge: U64, a0: Rational, n: nat, d: nat, k: nat)
    requires 0 < totalStake && 0 < k && 0 < d && Mul(a0, d as real) == n as real && a0 >= 0.0
    ensures var num := CapNumerator(pot, Capped(stake, k, totalStake), Capped(pledge, k, totalStake), totalStake, n, d);
      if num < 0 then
        MaxPool(pot, stake, totalStake, pledge, a0, k) == 0
      else
        IsFloor(MaxPool(pot, stake, totalStake, pledge, a0, k), num, CapDenominator(k, totalStake, n, d))
  {
    hide Cap, CapNumerator, CapDenominator, IsFloor;
    var num := CapNumerator(pot, Capped(stake, k, totalStake), Capped(pledge, k, totalStake), totalStake, n, d);
    var den := CapDenominator(k, totalStake, n, d);
    var sigma, pl, z := stake as real / totalStake as real, pledge as real / totalStake as real, 1.0 / k as real;
    var y := Cap(pot, sigma, pl, z, a0);
    CapFraction(pot, stake, pledge, totalStake, a0, n, d, k, sigma, pl, z);
    DenominatorIsPositive(k, totalStake, n, d);
    FloorOf(y, num, den);
    CapWithinPot(pot, Capped(stake, k, totalStake), Capped(pledge, k, totalStake), k, totalStake, n, d);
    if num < 0 {
      NegativeFloor(y.Floor, num, den);
    } else {
      FloorBounds(y.Floor, num, den, pot);
    }
  }

  lemma NegativeFloor(q: int, num: int, den: int)
    requires IsFloor(q, num, den) && num < 0
    ensures q < 0
  {
    if q >= 0 {
      MulMonoInt(0, q, den);
    }
  }

  lemma DenominatorIsPositive(k: nat, t: nat, n: nat, d: nat)
    requires 0 < k && 0 < t && 0 < d
    ensures CapDenominator(k, t, n, d) > 0
  {
    ProductIsPositive(k, t);
    ProductIsPositive(k * t, t);
    ProductIsPositive(k * t * t, t);
    ProductIsPositive(k * t * t * t, d + n);
  }

  /** Without a desired number of pools the source falls back on ten thirteenths of the stake's share. */
  lemma MaxPoolWithoutTarget(pot: U64, stake: U64, totalStake: U64, pledge: U64, a0: Rational, q: int)
    requires 0 < totalStake && stake <= totalStake && IsFloor(q, pot * stake, totalStake)
    ensures IsFloor(MaxPool(pot, stake, totalStake, pledge, a0, 0), q * 10, 13)
  {
    hide MulDiv, IsFloor;
    MulDivIsFloor(pot, stake, totalStake);
    FloorIsUnique(q, MulDiv(pot, stake, totalStake), pot * stake, totalStake);
    MulMonoInt(stake, totalStake, pot);
    FloorBounds(q, pot * stake, totalStake, pot);
    TenThirteenthsIsFloor(q);
  }

  lemma TenThirteenthsIsFloor(q: U64)
    ensures IsFloor(WrapU64(q * 10 / 13), q * 10, 13)
  {
  }

  /**
   What a pool earns: its cap times blocks over expected blocks, rounded down, and cut to
   64 bits the way the source casts it.
   */
  lemma PoolTotalIsExact(maxPool: U64, blocks: U64, totalBlocks: U64, stake: U64, activeStake: U64, q: int)
    requires 0 < totalBlocks && 0 < stake && IsFloor(q, maxPool * (blocks * activeStake), totalBlocks * stake)
    ensures PoolTotal(maxPool, blocks, totalBlocks, stake, activeStake)
         == if q < 0x8000_0000_0000_0000_0000_0000_0000_0000 then q % 0x1_0000_0000_0000_0000 else U64_MAX
  {
    hide FloorAsU64, MulDiv, FloorShare, IsFloor;
    var a, b, c := maxPool, blocks * activeStake, totalBlocks * stake;
    ProductIsPositive(totalBlocks, stake);
    assert b >= 0;
    FloorShareIsWrapped(a, b, c);
    MulDivIsFloor(a, b, c);
    FloorIsUnique(q, MulDiv(a, b, c), a * b, c);
    CastIsWrapped(q);
  }

  lemma MulDivIsFloor(a: nat, b: nat, c: nat)
    requires c > 0
    ensures IsFloor(MulDiv(a, b, c), a * b, c)
  {
    hide MulDiv;
    MulDivPinned(a, b, c);
  }

  lemma CastIsWrapped(q: nat)
    ensures FloorAsU64(q)
         == if q < 0x8000_0000_0000_0000_0000_0000_0000_0000 then q % 0x1_0000_0000_0000_0000 else U64_MAX
  {
  }

  // The pot.

  lemma PartIsFloor(a: U64, m: Rational, n: nat, d: nat)
    requires 0 < d && n <= d && Mul(m, d as real) == n as real
    ensures IsFloor(FloorPart(a, m), a * n, d)
  {
    ProductOfCasts(a, n);
    assert Mul(Mul(a as real, m), d as real) == (a * n) as real by {
      MulAssociates(a as real, m, d as real);
    }
    FloorOf(Mul(a as real, m), a * n, d);
    MulMonoInt(n, d, a);
    FloorBounds(Mul(a as real, m).Floor, a * n, d, a);
  }

  /** `e` is how many blocks an epoch is expected to have at full performance, but at least one. */
  predicate Expects(e: nat, d0: nat, d1: nat, slots: U64) {
    && d0 < d1
    && if (d1 - d0) * slots < d1 then e == 1 else IsFloor(e, (d1 - d0) * slots, d1)
  }

  /** The reserves release their part r0 / r1 of an epoch that makes its expected blocks, and less in proportion. */
  lemma ExpansionIsExact(i: RewardInputs, r0: nat, r1: nat, d0: nat, d1: nat, e: nat)
    requires 0 < r1 && r0 <= r1 && Mul(i.params.monetaryExpansion, r1 as real) == r0 as real
    requires 0 < d1 && Mul(i.params.decentralization, d1 as real) == d0 as real
    requires Sum(i.blocks) <= U64_MAX
    requires 5 * d0 < 4 * d1 ==> Expects(e, d0, d1, i.slotsPerEpoch)
    ensures if 4 * d1 <= 5 * d0 || e <= Sum(i.blocks) then
              IsFloor(Expansion(i), i.reserves * r0, r1)
            else
              IsFloor(Expansion(i), i.reserves * (r0 * Sum(i.blocks)), r1 * e)
  {
    hide FloorPart, IsFloor, Mul, Sum;
    SumBounds(i.blocks);
    var b, eta := Sum(i.blocks), Eta(i.params.decentralization, WrapU64(Sum(i.blocks)), i.slotsPerEpoch);
    EtaIsFraction(i.params.decentralization, b, i.slotsPerEpoch, d0, d1, e);
    if 4 * d1 <= 5 * d0 || e <= b {
      TimesOne(i.params.monetaryExpansion);
      PartIsFloor(i.reserves, i.params.monetaryExpansion, r0, r1);
    } else {
      ProductFraction(i.params.monetaryExpansion, eta, r0, r1, b, e);
      PartIsFloor(i.reserves, Mul(i.params.monetaryExpansion, eta), r0 * b, r1 * e);
    }
  }

  lemma TimesOne(x: Rational)
    ensures Mul(x, 1.0) == x
  {
  }

  lemma ProductFraction(x: Rational, y: Rational, x0: nat, x1: nat, y0: nat, y1: nat)
    requires x0 <= x1 && 0 < x1 && y0 <= y1 && 0 < y1
    requires Mul(x, x1 as real) == x0 as real && Mul(y, y1 as real) == y0 as real
    ensures Mul(Mul(x, y), (x1 * y1) as real) == (x0 * y0) as real && x0 * y0 <= x1 * y1 && 0 < x1 * y1
  {
    ProductOfCasts(x1, y1);
    ProductOfCasts(x0, y0);
    assert (x * y) * (x1 as real * y1 as real) == (x * x1 as real) * (y * y1 as real);
    MulMonoInt(x0, x1, y0);
    MulMonoInt(y0, y1, x1);
    ProductIsPositive(x1, y1);
  }

  lemma EtaIsFraction(d: Rational, blocks: U64, slots: U64, d0: nat, d1: nat, e: nat)
    requires 0 < d1 && Mul(d, d1 as real) == d0 as real
    requires 5 * d0 < 4 * d1 ==> Expects(e, d0, d1, slots)
    ensures 4 * d1 <= 5 * d0 || e <= blocks ==> Eta(d, blocks, slots) == 1.0
    ensures 5 * d0 < 4 * d1 && blocks < e ==> 0 < e && Mul(Eta(d, blocks, slots), e as real) == blocks as real
  {
    hide Mul, Expects, FloorAsU64, Eta;
    FourFifths(d, d0, d1);
    if 5 * d0 < 4 * d1 {
      ExpectedBlocks(d, slots, d0, d1, e);
      EtaFromExpected(d, blocks, slots, e);
    } else {
      FullPerformance(d, blocks, slots);
    }
  }

  lemma FourFifths(d: Rational, d0: nat, d1: nat)
    requires 0 < d1 && Mul(d, d1 as real) == d0 as real
    ensures d >= 0.8 <==> 4 * d1 <= 5 * d0
  {
    hide Mul;
    FourFifthsOf(d, d1 as real);
  }

  lemma FourFifthsOf(d: real, b: real)
    requires 0.0 < b
    ensures d >= 0.8 <==> 4.0 * b <= 5.0 * Mul(d, b)
  {
    if d >= 0.8 {
      MulMono(0.8, d, b);
    } else {
      assert (0.8 - d) * b > 0.0;
    }
  }

  lemma FullPerformance(d: Rational, blocks: U64, slots: U64)
    requires d >= 0.8
    ensures Eta(d, blocks, slots) == 1.0
  {
  }

  function AtLeastOne(x: Rational): U64 {
    if FloorAsU64(x.Floor) == 0 then 1 else FloorAsU64(x.Floor)
  }

  lemma EtaFromExpected(d: Rational, blocks: U64, slots: U64, e: nat)
    requires d < 0.8 && e == AtLeastOne(Mul(1.0 - d, slots as real))
    ensures 0 < e && Eta(d, blocks, slots) == if e <= blocks then 1.0 else blocks as real / e as real
    ensures blocks < e ==> Mul(Eta(d, blocks, slots), e as real) == blocks as real
  {
    hide FloorAsU64;
  }

  lemma ExpectedBlocks(d: Rational, slots: U64, d0: nat, d1: nat, e: nat)
    requires 0 < d1 && Mul(d, d1 as real) == d0 as real && Expects(e, d0, d1, slots)
    ensures e == AtLeastOne(Mul(1.0 - d, slots as real))
  {
    hide Mul;
    var x, num := Mul(1.0 - d, slots as real), (d1 - d0) * slots;
    ExpectedFraction(d, d0, d1, slots);
    FloorOf(x, num, d1);
    MulMonoInt(d1 - d0, d1, slots);
    FloorBounds(x.Floor, num, d1, slots);
    if num < d1 {
      FloorIsUnique(x.Floor, 0, num, d1);
    } else {
      FloorIsUnique(x.Floor, e, num, d1);
      AtLeast(e, num, d1);
    }
  }

  lemma AtLeast(q: int, num: int, den: int)
    requires IsFloor(q, num, den) && den <= num
    ensures 1 <= q
  {
    CancelFactor(1, q + 1, den);
  }

  lemma ExpectedFraction(d: Rational, d0: nat, d1: nat, slots: nat)
    requires Mul(d, d1 as real) == d0 as real
    ensures Mul(Mul(1.0 - d, slots as real), d1 as real) == ((d1 - d0) * slots) as real
  {
    ProductOfCasts(d1 - d0, slots);
    OneLess(d, d0, d1);
    SwapFactors(1.0 - d, slots as real, d1 as real);
  }

  lemma OneLess(d: Rational, d0: nat, d1: nat)
    requires Mul(d, d1 as real) == d0 as real
    ensures (1.0 - d) * d1 as real == (d1 - d0) as real
  {
  }

  lemma SwapFactors(x: real, y: real, z: real)
    ensures Mul(Mul(x, y), z) == (x * z) * y
  {
  }

  /** The treasury takes its part g0 / g1 of expansion and fees, and the pools get the rest. */
  lemma TreasuryShareIsExact(i: RewardInputs, g0: nat, g1: nat)
    requires 0 < g1 && g0 <= g1 && Mul(i.params.treasuryGrowth, g1 as real) == g0 as real
    ensures var total := Min(Expansion(i) + i.fees, U64_MAX);
      IsFloor(TreasuryShare(i), total * g0, g1) && TreasuryShare(i) + PotOf(i) == total
  {
    hide FloorPart, DeltaR1, Mul;
    var total := SatAdd(Expansion(i), i.fees);
    PartIsFloor(total, i.params.treasuryGrowth, g0, g1);
    MulMonoInt(g0, g1, total);
    FloorBounds(TreasuryShare(i), total * g0, g1, total);
  }

  // What an account gets.

  /** The leader rewards of the pools that pay to `c`. */
  ghost function LeaderRewardsTo(v: PotView, c: Credential): map<PoolId, int>
    requires v.totalStake > 0
  {
    map p | p in v.go.poolStakes && p in v.go.poolParams && v.go.poolParams[p].rewardAccount == c
            && PoolPayout(v, p).Paid? :: PoolPayout(v, p).leader as int
  }

  /** The member reward of `c` from the one pool it delegates to. */
  ghost function MemberRewardTo(v: PotView, c: Credential): Coin
    requires v.totalStake > 0
  {
    if c in v.go.delegations && v.go.delegations[c].0 in v.go.poolStakes
       && PoolPayout(v, v.go.delegations[c].0).Paid?
    then GetOr(PoolPayout(v, v.go.delegations[c].0).members, c) else 0
  }

  /** An account gets the leader rewards paid to it and its member reward from its own pool, and no other. */
  lemma CreditIsExact(v: PotView, c: Credential)
    requires v.totalStake > 0 && v.a0 >= 0.0
    ensures 0 <= Sum(LeaderRewardsTo(v, c))
    ensures GetOr(AllocationOf(v).credits, c) == Min(Sum(LeaderRewardsTo(v, c)) + MemberRewardTo(v, c), U64_MAX)
  {
    hide PoolPayout;
    var pools := v.go.poolStakes.Keys;
    SumBounds(LeaderRewardsTo(v, c));
    BalanceOf(v, pools, c);
    forall p | p in pools
      ensures CreditTo(v, p, c)
           == GetOrZero(LeaderRewardsTo(v, c), p) + GetOrZero(MemberRewardsTo(v, c), p)
    {
      if PoolPayout(v, p).Paid? {
        OnlyOwnPoolPays(v, p, c);
      }
    }
    CreditsSplit(v, c);
    OnePoolPays(v, c);
  }

  function GetOrZero(m: map<PoolId, int>, p: PoolId): int {
    if p in m then m[p] else 0
  }

  /** The same member reward as a map with at most one entry. */
  ghost function MemberRewardsTo(v: PotView, c: Credential): map<PoolId, int>
    requires v.totalStake > 0
  {
    map p | p in v.go.poolStakes && c in v.go.delegations && v.go.delegations[c].0 == p && PoolPayout(v, p).Paid? ::
      GetOr(PoolPayout(v, p).members, c) as int
  }

  lemma OnlyOwnPoolPays(v: PotView, p: PoolId, c: Credential)
    requires v.totalStake > 0 && v.a0 >= 0.0 && p in v.go.poolStakes && PoolPayout(v, p).Paid?
    ensures p in v.go.poolParams
    ensures c in PoolPayout(v, p).members ==> c in v.go.delegations && v.go.delegations[c].0 == p
  {
    hide MaxPool, PoolTotal;
    PaidPool(v, p);
  }

  lemma CreditsSplit(v: PotView, c: Credential)
    requires v.totalStake > 0
    requires forall p :: p in v.go.poolStakes ==>
               CreditTo(v, p, c) == GetOrZero(LeaderRewardsTo(v, c), p) + GetOrZero(MemberRewardsTo(v, c), p)
    ensures Sum(CreditsTo(v, v.go.poolStakes.Keys, c))
         == Sum(LeaderRewardsTo(v, c)) + Sum(MemberRewardsTo(v, c))
  {
    hide PoolPayout, CreditTo;
    var pools := v.go.poolStakes.Keys;
    var ls := map p | p in pools :: GetOrZero(LeaderRewardsTo(v, c), p);
    var ms := map p | p in pools :: GetOrZero(MemberRewardsTo(v, c), p);
    SumIgnoresZeros(LeaderRewardsTo(v, c), ls);
    SumIgnoresZeros(MemberRewardsTo(v, c), ms);
    SumPlus(ls, ms, CreditsTo(v, pools, c));
  }

  lemma OnePoolPays(v: PotView, c: Credential)
    requires v.totalStake > 0
    ensures Sum(MemberRewardsTo(v, c)) == MemberRewardTo(v, c)
  {
    hide PoolPayout;
    var none: map<PoolId, int> := map[];
    if c in v.go.delegations && v.go.delegations[c].0 in v.go.poolStakes
       && PoolPayout(v, v.go.delegations[c].0).Paid? {
      var p := v.go.delegations[c].0;
      assert MemberRewardsTo(v, c) == none[p := MemberRewardTo(v, c) as int];
      SumUpdate(none, p, MemberRewardTo(v, c));
    } else {
      assert MemberRewardsTo(v, c) == none;
    }
  }
}
