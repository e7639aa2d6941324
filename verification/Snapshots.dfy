/**
 Stake snapshots and their mark/set/go rotation (crates/ade_ledger/src/epoch.rs),
 and the construction of a boundary's new mark
 (crates/ade_ledger/src/epoch_accumulator.rs).
 */
module Snapshots {
  import opened LedgerTypes
  import opened Sums

  datatype SnapshotPoolParams = SnapshotPoolParams(
    pledge: Coin,
    cost: Coin,
    margin: (U64, U64),
    rewardAccount: Credential,
    selfDelegatedOwners: set<Hash28>)

  datatype StakeSnapshot = StakeSnapshot(
    delegations: map<Credential, (PoolId, Coin)>,
    poolStakes: map<PoolId, Coin>,
    poolParams: map<PoolId, SnapshotPoolParams>)

  datatype SnapshotState = SnapshotState(mark: StakeSnapshot, set_: StakeSnapshot, go: StakeSnapshot)

  function Delegators(snap: StakeSnapshot, pool: PoolId): map<Credential, Coin> {
    map c | c in snap.delegations && snap.delegations[c].0 == pool :: snap.delegations[c].1
  }

  lemma DelegatorsAreGroup(snap: StakeSnapshot, pool: PoolId)
    ensures Delegators(snap, pool) == Group(snap.delegations, pool)
  {
  }

  /** Each pool's stake is the sum of its delegators' stakes. */
  ghost predicate PoolStakesAreSums(snap: StakeSnapshot) {
    forall p :: p in snap.poolStakes ==> snap.poolStakes[p] == Sum(Delegators(snap, p))
  }

  /**
   What a freshly built mark guarantees: per-pool sums, an entry exactly for the
   pools that carry stake, and no zero-stake credential.
   */
  ghost predicate WellFormed(snap: StakeSnapshot) {
    && PoolStakesAreSums(snap)
    && (forall c :: c in snap.delegations ==> snap.delegations[c].1 > 0 && snap.delegations[c].0 in snap.poolStakes)
    && (forall p :: p in snap.poolStakes ==> snap.poolStakes[p] > 0)
  }

  ghost predicate AllWellFormed(s: SnapshotState) {
    WellFormed(s.mark) && WellFormed(s.set_) && WellFormed(s.go)
  }

  /** The credential-side total of a snapshot, before any clamping to 64 bits. */
  ghost function CredentialTotal(snap: StakeSnapshot): int {
    Sum(Amounts(snap.delegations))
  }

  /** `total_active_stake`: the saturating fold over the credential side. */
  ghost function TotalActiveStake(snap: StakeSnapshot): (t: Coin)
  {
    SumBounds(Amounts(snap.delegations));
    Min(CredentialTotal(snap), U64_MAX)
  }

  function Rotate(current: SnapshotState, newMark: StakeSnapshot): SnapshotState {
    SnapshotState(newMark, current.mark, current.set_)
  }

  function RemovePools(snap: StakeSnapshot, retired: set<PoolId>): StakeSnapshot {
    StakeSnapshot(
      map c | c in snap.delegations && snap.delegations[c].0 !in retired :: snap.delegations[c],
      snap.poolStakes - retired,
      snap.poolParams - retired)
  }

  lemma RemovePoolsKeepsWellFormed(snap: StakeSnapshot, retired: set<PoolId>)
    ensures PoolStakesAreSums(snap) ==> PoolStakesAreSums(RemovePools(snap, retired))
    ensures WellFormed(snap) ==> WellFormed(RemovePools(snap, retired))
    ensures var after := RemovePools(snap, retired);
      && (forall c :: c in after.delegations <==> c in snap.delegations && snap.delegations[c].0 !in retired)
      && (forall p :: p in after.poolStakes <==> p in snap.poolStakes && p !in retired)
      && (forall p :: p in after.poolParams <==> p in snap.poolParams && p !in retired)
      && (forall c :: c in after.delegations ==> after.delegations[c] == snap.delegations[c])
      && (forall p :: p in after.poolStakes ==> after.poolStakes[p] == snap.poolStakes[p])
      && (forall p :: p in after.poolParams ==> after.poolParams[p] == snap.poolParams[p])
  {
    var after := RemovePools(snap, retired);
    forall p | p in after.poolStakes
      ensures Delegators(after, p) == Delegators(snap, p)
    {}
  }

  lemma PoolStakesAreGroupSums(snap: StakeSnapshot)
    requires PoolStakesAreSums(snap)
    ensures GroupSums(snap.delegations, snap.poolStakes.Keys) == snap.poolStakes
  {
    forall p | p in snap.poolStakes
      ensures Sum(Group(snap.delegations, p)) == snap.poolStakes[p]
    {
      DelegatorsAreGroup(snap, p);
    }
  }

  /** In a snapshot of per-pool sums covering every delegation, both sides have one total. */
  lemma PoolTotalIsCredentialTotal(snap: StakeSnapshot)
    requires WellFormed(snap)
    ensures Sum(snap.poolStakes) == CredentialTotal(snap)
  {
    PoolStakesAreGroupSums(snap);
    SumByGroup(snap.delegations, snap.poolStakes.Keys);
  }

  // Mark construction.

  /** A credential's instant stake: its base UTxO coin plus its reward balance. */
  function InstantStake(base: map<Credential, Coin>, rewards: map<Credential, Coin>, c: Credential): Coin {
    SatAdd(GetOr(base, c), GetOr(rewards, c))
  }

  function SnapshotPools(
    pools: map<PoolId, PoolParams>, delegations: map<Credential, PoolId>): map<PoolId, SnapshotPoolParams>
  {
    map p | p in pools && RewardAccountCredential(pools[p].rewardAccount).Some? ::
      SnapshotPoolParams(
        pools[p].pledge, pools[p].cost, pools[p].margin,
        RewardAccountCredential(pools[p].rewardAccount).value,
        set o | o in pools[p].owners && KeyHash(o) in delegations && delegations[KeyHash(o)] == p)
  }

  /** The delegated credentials whose stake is not zero. */
  function MarkDelegations(
    base: map<Credential, Coin>, rewards: map<Credential, Coin>, delegations: map<Credential, PoolId>):
    map<Credential, (PoolId, Coin)>
  {
    map c | c in delegations && InstantStake(base, rewards, c) > 0 ::
      (delegations[c], InstantStake(base, rewards, c))
  }

  /** The mark a boundary builds, with each pool's stake clamped to 64 bits as the source accumulates it. */
  ghost function MarkSpec(
    base: map<Credential, Coin>, rewards: map<Credential, Coin>,
    delegations: map<Credential, PoolId>, pools: map<PoolId, PoolParams>): StakeSnapshot
  {
    var ds := MarkDelegations(base, rewards, delegations);
    StakeSnapshot(ds, ClampedGroupSums(ds), SnapshotPools(pools, delegations))
  }

  ghost function ClampedGroupSums(ds: map<Credential, (PoolId, Coin)>): map<PoolId, Coin> {
    map p | p in (set c | c in ds :: ds[c].0) :: GroupTotal(ds, p)
  }

  ghost function GroupTotal(ds: map<Credential, (PoolId, Coin)>, p: PoolId): Coin {
    SumBounds(Group(ds, p));
    Min(Sum(Group(ds, p)), U64_MAX)
  }

  /** `build_boundary_mark_snapshot`, for any order in which the delegation map is walked. */
  method BuildMark(
    base: map<Credential, Coin>, rewards: map<Credential, Coin>,
    delegations: map<Credential, PoolId>, pools: map<PoolId, PoolParams>)
    returns (mark: StakeSnapshot)
    ensures mark == MarkSpec(base, rewards, delegations, pools)
  {
    hide MarkDelegations, ClampedGroupSums, SnapshotPools, InstantStake;
    NothingMarked(base, rewards);
    var ds: map<Credential, (PoolId, Coin)> := map[];
    var stakes: map<PoolId, Coin> := map[];
    var remaining := delegations.Keys;
    ghost var done: map<Credential, PoolId> := map[];
    while remaining != {}
      invariant remaining <= delegations.Keys
      invariant done == delegations - remaining
      invariant ds == MarkDelegations(base, rewards, done)
      invariant stakes == ClampedGroupSums(ds)
    {
      var c :| c in remaining;
      var pool, stake := delegations[c], InstantStake(base, rewards, c);
      TakenStep(delegations, remaining, done, c);
      MarkStep(base, rewards, done, c, pool);
      remaining, done := remaining - {c}, done[c := pool];
      if stake != 0 {
        AddToGroup(ds, c, pool, stake);
        ds := ds[c := (pool, stake)];
        stakes := stakes[pool := SatAdd(if pool in stakes then stakes[pool] else 0, stake)];
      }
    }
    assert done == delegations;
    mark := StakeSnapshot(ds, stakes, SnapshotPools(pools, delegations));
  }

  lemma NothingMarked(base: map<Credential, Coin>, rewards: map<Credential, Coin>)
    ensures MarkDelegations(base, rewards, map[]) == map[] && ClampedGroupSums(map[]) == map[]
  {
  }

  lemma MarkStep(
    base: map<Credential, Coin>, rewards: map<Credential, Coin>,
    done: map<Credential, PoolId>, c: Credential, pool: PoolId)
    requires c !in done
    ensures var stake, before := InstantStake(base, rewards, c), MarkDelegations(base, rewards, done);
      && MarkDelegations(base, rewards, done[c := pool]) == (if stake == 0 then before else before[c := (pool, stake)])
      && c !in before
  {
  }

  lemma AddToGroup(ds: map<Credential, (PoolId, Coin)>, c: Credential, pool: PoolId, stake: Coin)
    requires c !in ds
    ensures var old_ := ClampedGroupSums(ds);
      ClampedGroupSums(ds[c := (pool, stake)])
        == old_[pool := SatAdd(if pool in old_ then old_[pool] else 0, stake)]
  {
    var next, old_ := ds[c := (pool, stake)], ClampedGroupSums(ds);
    var new_ := ClampedGroupSums(next);
    forall p
      ensures p in new_ <==> p == pool || p in old_
      ensures p in old_ && p != pool ==> new_[p] == old_[p]
    {
      AddToGroups(ds, c, pool, stake, p);
    }
    AddToOneGroup(ds, c, pool, stake);
  }

  lemma AddToGroups(ds: map<Credential, (PoolId, Coin)>, c: Credential, pool: PoolId, stake: Coin, p: PoolId)
    requires c !in ds
    ensures var old_, new_ := ClampedGroupSums(ds), ClampedGroupSums(ds[c := (pool, stake)]);
      && (p in new_ <==> p == pool || p in old_)
      && (p in old_ && p != pool ==> new_[p] == old_[p])
  {
    var next := ds[c := (pool, stake)];
    assert next[c].0 == pool;
    if p in ClampedGroupSums(ds) {
      var k :| k in ds && ds[k].0 == p;
      assert next[k].0 == p;
    }
    if p != pool {
      assert Group(next, p) == Group(ds, p);
    }
  }

  lemma AddToOneGroup(ds: map<Credential, (PoolId, Coin)>, c: Credential, pool: PoolId, stake: Coin)
    requires c !in ds
    ensures GroupTotal(ds[c := (pool, stake)], pool) == SatAdd(GroupTotal(ds, pool), stake)
    ensures pool !in ClampedGroupSums(ds) ==> GroupTotal(ds, pool) == 0
  {
    assert Group(ds[c := (pool, stake)], pool) == Group(ds, pool)[c := stake];
    SumUpdate(Group(ds, pool), c, stake);
    if pool !in ClampedGroupSums(ds) {
      assert Group(ds, pool) == map[];
    }
  }

  /** No pool's delegators hold more than 64 bits together. */
  ghost predicate NoPoolClamped(ds: map<Credential, (PoolId, Coin)>) {
    forall p :: Sum(Group(ds, p)) <= U64_MAX
  }

  /** A mark is well formed, with per-pool sums and no zero entries, exactly when no pool's stake was clamped. */
  lemma MarkIsWellFormed(
    base: map<Credential, Coin>, rewards: map<Credential, Coin>,
    delegations: map<Credential, PoolId>, pools: map<PoolId, PoolParams>)
    ensures WellFormed(MarkSpec(base, rewards, delegations, pools)) <==>
              NoPoolClamped(MarkDelegations(base, rewards, delegations))
  {
    hide GroupTotal, Delegators, Group, Sum;
    var mark, ds := MarkSpec(base, rewards, delegations, pools), MarkDelegations(base, rewards, delegations);
    forall p
      ensures p in mark.poolStakes ==> mark.poolStakes[p] > 0 && Sum(Delegators(mark, p)) == Sum(Group(ds, p))
      ensures p in mark.poolStakes ==> (mark.poolStakes[p] == Sum(Group(ds, p)) <==> Sum(Group(ds, p)) <= U64_MAX)
      ensures p !in mark.poolStakes ==> Sum(Group(ds, p)) == 0
    {
      GroupFits(ds, p);
      DelegatorsAreGroup(mark, p);
    }
  }

  lemma GroupFits(ds: map<Credential, (PoolId, Coin)>, p: PoolId)
    requires forall c :: c in ds ==> ds[c].1 > 0
    ensures GroupTotal(ds, p) == Min(Sum(Group(ds, p)), U64_MAX)
    ensures if p in ClampedGroupSums(ds) then 0 < GroupTotal(ds, p) else Sum(Group(ds, p)) == 0
  {
    var g := Group(ds, p);
    SumBounds(g);
    if p in ClampedGroupSums(ds) {
      var c :| c in ds && ds[c].0 == p;
      assert g[c] > 0;
    } else {
      assert g == map[];
    }
  }

  /** A snapshot whose credentials fit in 64 bits together clamps no pool. */
  lemma SmallTotalClampsNothing(ds: map<Credential, (PoolId, Coin)>)
    requires Sum(Amounts(ds)) <= U64_MAX
    ensures NoPoolClamped(ds)
  {
    forall p
      ensures Sum(Group(ds, p)) <= U64_MAX
    {
      SumSubset(Group(ds, p), Amounts(ds));
    }
  }
}
