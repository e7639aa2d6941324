/**
 Freezing a leadership distribution at an epoch boundary
 (crates/ade_ledger/src/frozen_leadership.rs). The stake denominator is the mark's
 credential-side total, carried beside the pools and never summed from them.
 */
module Leadership {
  import opened LedgerTypes
  import opened Sums
  import opened Snapshots
  import opened CanonicalMaps
  import opened PoolCodecs

  /** What a boundary hands to the freeze. */
  datatype FreezeInputs = FreezeInputs(
    sourceEpoch: U64,
    targetEpoch: U64,
    delegatedPools: set<PoolId>,
    registeredVrfs: map<PoolId, Hash32>,
    markStakes: map<PoolId, Coin>,
    totalActiveStake: Coin)

  /** The mark's source point and the checkpoint commitment. */
  datatype Lineage = Lineage(slot: U64, hash: Hash32, commitment: Hash32)

  datatype Distribution = Distribution(
    targetEpoch: U64,
    source: Lineage,
    totalActiveStake: Coin,
    pools: map<Hash28, PoolEntry>)

  /** The pools with a delegator that are registered, each with its mark stake or zero. */
  function FrozenPools(i: FreezeInputs): map<Hash28, PoolEntry> {
    map p | p in i.delegatedPools && p in i.registeredVrfs ::
      p.hash := PoolEntry(GetOr(i.markStakes, p), i.registeredVrfs[p])
  }

  function Freeze(i: FreezeInputs, source: Lineage): Distribution {
    Distribution(i.targetEpoch, source, i.totalActiveStake, FrozenPools(i))
  }

  /** `from_boundary_snapshot`: one insertion a delegated pool, in any order. */
  method FreezeBoundary(i: FreezeInputs, source: Lineage) returns (d: Distribution)
    ensures d == Freeze(i, source)
  {
    var pools: map<Hash28, PoolEntry> := map[];
    var remaining := i.delegatedPools;
    while remaining != {}
      invariant remaining <= i.delegatedPools
      invariant pools == FrozenPools(i.(delegatedPools := i.delegatedPools - remaining))
    {
      var p :| p in remaining;
      ghost var done := i.delegatedPools - remaining;
      remaining := remaining - {p};
      FreezeStep(i, done, p);
      assert i.delegatedPools - remaining == done + {p};
      if p in i.registeredVrfs {
        pools := pools[p.hash := PoolEntry(GetOr(i.markStakes, p), i.registeredVrfs[p])];
      }
    }
    assert i.(delegatedPools := i.delegatedPools - remaining) == i;
    d := Distribution(i.targetEpoch, source, i.totalActiveStake, pools);
  }

  lemma FreezeStep(i: FreezeInputs, done: set<PoolId>, p: PoolId)
    ensures var before, after := FrozenPools(i.(delegatedPools := done)), FrozenPools(i.(delegatedPools := done + {p}));
      after == if p in i.registeredVrfs
               then before[p.hash := PoolEntry(GetOr(i.markStakes, p), i.registeredVrfs[p])]
               else before
  {
  }

  /** The object as it is written: its pools in ascending order. */
  ghost function Record(d: Distribution): FrozenLeadership
    requires |d.pools| <= U64_MAX
  {
    KeyBelowIsStrictOrder();
    SortedListIsSorted(KeyBelow, d.pools);
    FrozenLeadership(d.targetEpoch, d.source.slot, d.source.hash, d.source.commitment, d.totalActiveStake,
                     SortedList(KeyBelow, d.pools))
  }

  function Unrecord(r: FrozenLeadership): Distribution {
    Distribution(r.targetEpoch, Lineage(r.sourceSlot, r.sourceHash, r.sourceCommitment), r.totalActiveStake,
                 ToMap(r.pools))
  }

  /** What a boundary freezes is what comes back from its encoding. */
  lemma FrozenObjectRoundTrips(d: Distribution)
    requires |d.pools| <= U64_MAX
    ensures DecodeFrozen(EncodeFrozen(Record(d))).Ok?
    ensures Unrecord(DecodeFrozen(EncodeFrozen(Record(d))).value) == d
  {
    hide DecodeFrozen, EncodeFrozen;
    FrozenReadsBack(Record(d));
    KeyBelowIsStrictOrder();
    SortedListIsSorted(KeyBelow, d.pools);
  }

  /** And each record is the record of exactly one distribution. */
  lemma RecordsAreDistributions(r: FrozenLeadership)
    ensures |Unrecord(r).pools| == |r.pools| && Record(Unrecord(r)) == r
  {
    KeyBelowIsStrictOrder();
    hide StrictOrder;
    SortedListIsUnique(KeyBelow, r.pools);
    SortedListIsSorted(KeyBelow, ToMap(r.pools));
  }

  /** The stake of every frozen pool, by pool. */
  function ActiveStakes(d: Distribution): map<PoolId, Coin> {
    map h | h in d.pools :: PoolId(h) := d.pools[h].activeStake
  }

  lemma ActiveStakesOfFreeze(i: FreezeInputs, source: Lineage)
    ensures ActiveStakes(Freeze(i, source))
         == map p | p in i.delegatedPools && p in i.registeredVrfs :: GetOr(i.markStakes, p)
  {
  }

  /** The freeze inputs of a boundary whose new mark is `MarkSpec(base, rewards, delegations, pools)`. */
  ghost predicate FromMark(
    i: FreezeInputs, base: map<Credential, Coin>, rewards: map<Credential, Coin>,
    delegations: map<Credential, PoolId>, pools: map<PoolId, PoolParams>)
  {
    var mark := MarkSpec(base, rewards, delegations, pools);
    && i.delegatedPools == delegations.Values
    && i.registeredVrfs == (map p | p in pools :: pools[p].vrf)
    && i.markStakes == mark.poolStakes
    && i.totalActiveStake == TotalActiveStake(mark)
  }

  lemma MarkStakesSum(ds: map<Credential, (PoolId, Coin)>)
    ensures Sum(ClampedGroupSums(ds)) <= Sum(Amounts(ds))
  {
    var stakes := ClampedGroupSums(ds);
    SumByGroup(ds, stakes.Keys);
    SumLe(stakes, GroupSums(ds, stakes.Keys));
  }

  /** A stake-carrying delegation to a pool that is not registered: its stake is in the total only. */
  ghost predicate Dangles(delegations: map<Credential, (PoolId, Coin)>, pools: map<PoolId, PoolParams>) {
    exists c :: c in delegations && delegations[c].0 !in pools
  }

  /** The delegations to registered pools, and what their credentials hold. */
  function Backed(ds: map<Credential, (PoolId, Coin)>, pools: set<PoolId>): map<Credential, (PoolId, Coin)> {
    map c | c in ds && ds[c].0 in pools :: ds[c]
  }

  function PoolsOf(ds: map<Credential, (PoolId, Coin)>): set<PoolId> {
    set c | c in ds :: ds[c].0
  }

  ghost function Held(ds: map<Credential, (PoolId, Coin)>): int {
    Sum(Amounts(ds))
  }

  // Adding up clamped pool stakes.

  /** Everything fits: the pools' stakes are the credentials'. */
  lemma UnclampedSum(ds: map<Credential, (PoolId, Coin)>)
    requires NoPoolClamped(ds) && forall c :: c in ds ==> ds[c].1 > 0
    ensures Sum(ClampedGroupSums(ds)) == Held(ds)
  {
    hide Group, GroupTotal;
    var stakes := ClampedGroupSums(ds);
    assert stakes == GroupSums(ds, stakes.Keys) by {
      forall p | p in stakes
        ensures stakes[p] == Sum(Group(ds, p))
      {
        GroupFits(ds, p);
      }
    }
    SumByGroup(ds, stakes.Keys);
  }

  /** One pool: its stake is what all credentials hold, clamped. */
  lemma OnePoolSum(ds: map<Credential, (PoolId, Coin)>, p: PoolId)
    requires PoolsOf(ds) == {p}
    ensures Sum(ClampedGroupSums(ds)) == Min(Held(ds), U64_MAX)
  {
    assert Group(ds, p) == Amounts(ds) by {
      forall c | c in ds
        ensures ds[c].0 == p
      {
        assert ds[c].0 in PoolsOf(ds);
      }
    }
    hide Group, GroupTotal;
    OnlyEntry(ClampedGroupSums(ds), p);
    SumBounds(Amounts(ds));
    OneGroup(ds, p);
  }

  lemma OneGroup(ds: map<Credential, (PoolId, Coin)>, p: PoolId)
    ensures GroupTotal(ds, p) == Min(Sum(Group(ds, p)), U64_MAX)
  {
  }

  lemma OnlyEntry(m: map<PoolId, Coin>, p: PoolId)
    requires m.Keys == {p}
    ensures Sum(m) == m[p]
  {
    var none: map<PoolId, int> := map[];
    assert m == none[p := m[p]];
    SumUpdate(none, p, m[p]);
  }

  /** A clamped pool beside another: together they do not fit. */
  lemma ClampedBesideAnother(ds: map<Credential, (PoolId, Coin)>, p: PoolId, q: PoolId)
    requires (forall c :: c in ds ==> ds[c].1 > 0) && p in PoolsOf(ds) && q in PoolsOf(ds) && p != q
    requires Sum(Group(ds, p)) > U64_MAX
    ensures Sum(ClampedGroupSums(ds)) > U64_MAX
  {
    hide Group, GroupTotal;
    var stakes := ClampedGroupSums(ds);
    GroupFits(ds, p);
    GroupFits(ds, q);
    SumRemove(stakes, p);
    SumBounds(stakes - {p});
    assert (stakes - {p})[q] == stakes[q];
  }

  /**
   The sum of clamped pool stakes fits in 64 bits exactly when the credentials' stakes
   do or there is only one pool, and then it is the credentials' total, clamped once.
   */
  lemma ClampedStakesSum(ds: map<Credential, (PoolId, Coin)>)
    requires forall c :: c in ds ==> ds[c].1 > 0
    ensures Sum(ClampedGroupSums(ds)) <= U64_MAX <==> Held(ds) <= U64_MAX || |PoolsOf(ds)| == 1
    ensures Sum(ClampedGroupSums(ds)) <= U64_MAX ==> Sum(ClampedGroupSums(ds)) == Min(Held(ds), U64_MAX)
  {
    hide ClampedGroupSums, NoPoolClamped;
    OneElement(PoolsOf(ds));
    if Held(ds) <= U64_MAX {
      SmallTotalClampsNothing(ds);
      UnclampedSum(ds);
    } else if p :| PoolsOf(ds) == {p} {
      OnePoolSum(ds, p);
    } else if NoPoolClamped(ds) {
      UnclampedSum(ds);
    } else {
      ClampedNotAlone(ds);
    }
  }

  lemma OneElement(s: set<PoolId>)
    ensures |s| == 1 <==> exists p :: s == {p}
  {
    if |s| == 1 {
      var p :| p in s;
      assert |s - {p}| == 0;
      assert s == {p};
    }
  }

  lemma AloneOrNot(s: set<PoolId>, p: PoolId)
    requires p in s
    ensures s == {p} || exists q :: q in s && q != p
  {
    if s - {p} != {} {
      var q :| q in s - {p};
      assert q in s && q != p;
    } else {
      assert s == {p};
    }
  }

  lemma ClampedNotAlone(ds: map<Credential, (PoolId, Coin)>)
    requires (forall c :: c in ds ==> ds[c].1 > 0) && !NoPoolClamped(ds) && forall p :: PoolsOf(ds) != {p}
    ensures Sum(ClampedGroupSums(ds)) > U64_MAX
  {
    hide Group, ClampedGroupSums;
    var p :| Sum(Group(ds, p)) > U64_MAX;
    GroupFits(ds, p);
    ClampedKeys(ds);
    AloneOrNot(PoolsOf(ds), p);
    var q :| q in PoolsOf(ds) && q != p;
    ClampedBesideAnother(ds, p, q);
  }

  lemma ClampedKeys(ds: map<Credential, (PoolId, Coin)>)
    ensures ClampedGroupSums(ds).Keys == PoolsOf(ds)
  {
  }

  // The frozen stakes.

  /** What is frozen is the clamped stakes of the pools that are backed, and zeros. */
  lemma FrozenIsBacked(
    i: FreezeInputs, source: Lineage, base: map<Credential, Coin>, rewards: map<Credential, Coin>,
    delegations: map<Credential, PoolId>, pools: map<PoolId, PoolParams>)
    requires FromMark(i, base, rewards, delegations, pools)
    ensures Sum(ActiveStakes(Freeze(i, source)))
         == Sum(ClampedGroupSums(Backed(MarkDelegations(base, rewards, delegations), pools.Keys)))
  {
    hide Freeze, ActiveStakes, MarkDelegations, SnapshotPools, GroupTotal;
    var ds := MarkDelegations(base, rewards, delegations);
    var frozen, stakes := ActiveStakes(Freeze(i, source)), ClampedGroupSums(Backed(ds, pools.Keys));
    ActiveStakesOfFreeze(i, source);
    MarkShape(base, rewards, delegations, pools);
    forall p
      ensures p in stakes <==> p in ClampedGroupSums(ds) && p in pools
      ensures p in stakes ==> p in delegations.Values && stakes[p] == ClampedGroupSums(ds)[p]
    {
      BackedPool(ds, pools.Keys, p);
      if p in stakes {
        var c :| c in ds && ds[c].0 == p;
        assert delegations[c] == p;
      }
    }
    SumIgnoresZeros(stakes, frozen);
  }

  lemma BackedPool(ds: map<Credential, (PoolId, Coin)>, pools: set<PoolId>, p: PoolId)
    ensures p in ClampedGroupSums(Backed(ds, pools)) <==> p in ClampedGroupSums(ds) && p in pools
    ensures p in pools ==> GroupTotal(Backed(ds, pools), p) == GroupTotal(ds, p)
  {
    var bs := Backed(ds, pools);
    if p in pools {
      assert Group(bs, p) == Group(ds, p);
      if c :| c in ds && ds[c].0 == p {
        assert bs[c].0 == p;
      }
    }
    if c :| c in bs && bs[c].0 == p {
      assert ds[c].0 == p;
    }
  }

  lemma MarkShape(
    base: map<Credential, Coin>, rewards: map<Credential, Coin>,
    delegations: map<Credential, PoolId>, pools: map<PoolId, PoolParams>)
    ensures var mark := MarkSpec(base, rewards, delegations, pools);
      && mark.delegations == MarkDelegations(base, rewards, delegations)
      && (forall c :: c in mark.delegations ==> c in delegations && delegations[c] == mark.delegations[c].0)
      && (forall c :: c in mark.delegations ==> mark.delegations[c].1 > 0)
  {
  }

  /** Leaving out the dangling delegations leaves out their stake. */
  lemma BackedWithinHeld(ds: map<Credential, (PoolId, Coin)>, pools: map<PoolId, PoolParams>)
    requires forall c :: c in ds ==> ds[c].1 > 0
    ensures 0 <= Held(Backed(ds, pools.Keys)) <= Held(ds)
    ensures Held(Backed(ds, pools.Keys)) == Held(ds) <==> !Dangles(ds, pools)
  {
    var bs := Backed(ds, pools.Keys);
    SumBounds(Amounts(bs));
    SumSubset(Amounts(bs), Amounts(ds));
    if c :| c in ds && ds[c].0 !in pools {
      assert c in Amounts(ds) && c !in Amounts(bs) && Amounts(ds)[c] > 0;
    } else {
      assert bs == ds;
    }
  }

  /**
   The frozen stakes never exceed the credentials' stakes. They stay within the carried
   total, which is clamped to 64 bits, exactly when what the backed credentials hold
   fits in 64 bits or backs a single pool.
   */
  lemma FrozenStakesWithinTotal(
    i: FreezeInputs, source: Lineage, base: map<Credential, Coin>, rewards: map<Credential, Coin>,
    delegations: map<Credential, PoolId>, pools: map<PoolId, PoolParams>)
    requires FromMark(i, base, rewards, delegations, pools)
    ensures var backed := Backed(MarkDelegations(base, rewards, delegations), pools.Keys);
      && Sum(ActiveStakes(Freeze(i, source))) <= Held(backed)
      && (Sum(ActiveStakes(Freeze(i, source))) <= i.totalActiveStake <==>
            Held(backed) <= U64_MAX || |PoolsOf(backed)| == 1)
  {
    hide Freeze, ActiveStakes, ClampedGroupSums, MarkDelegations, Backed, PoolsOf, Dangles;
    var ds := MarkDelegations(base, rewards, delegations);
    MarkShape(base, rewards, delegations, pools);
    FrozenIsBacked(i, source, base, rewards, delegations, pools);
    BackedStakesArePositive(ds, pools.Keys);
    ClampedStakesSum(Backed(ds, pools.Keys));
    MarkStakesSum(Backed(ds, pools.Keys));
    BackedWithinHeld(ds, pools);
  }

  lemma BackedStakesArePositive(ds: map<Credential, (PoolId, Coin)>, pools: set<PoolId>)
    requires forall c :: c in ds ==> ds[c].1 > 0
    ensures forall c :: c in Backed(ds, pools) ==> Backed(ds, pools)[c].1 > 0
  {
  }

  /**
   The frozen stakes are the carried total exactly when they stay within it and either
   no stake-carrying delegation dangles or the backed stake reaches the ceiling anyway.
   */
  lemma FrozenStakesAreTotal(
    i: FreezeInputs, source: Lineage, base: map<Credential, Coin>, rewards: map<Credential, Coin>,
    delegations: map<Credential, PoolId>, pools: map<PoolId, PoolParams>)
    requires FromMark(i, base, rewards, delegations, pools)
    ensures var ds := MarkDelegations(base, rewards, delegations);
      var backed := Backed(ds, pools.Keys);
      Sum(ActiveStakes(Freeze(i, source))) == i.totalActiveStake <==>
        && (Held(backed) <= U64_MAX || |PoolsOf(backed)| == 1)
        && (!Dangles(ds, pools) || Held(backed) >= U64_MAX)
  {
    hide Freeze, ActiveStakes, ClampedGroupSums, MarkDelegations, Backed, PoolsOf, Dangles;
    var ds := MarkDelegations(base, rewards, delegations);
    MarkShape(base, rewards, delegations, pools);
    FrozenIsBacked(i, source, base, rewards, delegations, pools);
    BackedStakesArePositive(ds, pools.Keys);
    ClampedStakesSum(Backed(ds, pools.Keys));
    BackedWithinHeld(ds, pools);
  }

  function FullInputs(p: PoolId, q: PoolId, params: PoolParams): FreezeInputs {
    FreezeInputs(0, 1, {p, q}, map[p := params.vrf, q := params.vrf], map[p := U64_MAX, q := U64_MAX], U64_MAX)
  }

  /** Two credentials that hold the whole 64-bit range each, delegated to two registered pools. */
  lemma CeilingCanBeExceeded(
    p: PoolId, q: PoolId, a: Credential, b: Credential, params: PoolParams, source: Lineage)
    requires p != q && a != b
    ensures var i := FullInputs(p, q, params);
      && FromMark(i, map[a := U64_MAX, b := U64_MAX], map[], map[a := p, b := q], map[p := params, q := params])
      && Sum(ActiveStakes(Freeze(i, source))) == 2 * U64_MAX > i.totalActiveStake
  {
    hide FromMark, ActiveStakes, Freeze;
    FullInputsFromMark(p, q, a, b, params);
    var i := FullInputs(p, q, params);
    ActiveStakesOfFreeze(i, source);
    assert ActiveStakes(Freeze(i, source)) == map[p := U64_MAX as int, q := U64_MAX as int];
    SumOfTwo(p, q, U64_MAX, U64_MAX);
  }

  lemma FullInputsFromMark(p: PoolId, q: PoolId, a: Credential, b: Credential, params: PoolParams)
    requires p != q && a != b
    ensures FromMark(FullInputs(p, q, params), map[a := U64_MAX, b := U64_MAX], map[], map[a := p, b := q],
                     map[p := params, q := params])
  {
    hide MarkDelegations, ClampedGroupSums, SnapshotPools;
    FullDelegations(p, q, a, b);
    FullStakes(map[a := (p, U64_MAX), b := (q, U64_MAX)], p, q, a, b);
    var delegations, pools := map[a := p, b := q], map[p := params, q := params];
    assert delegations.Values == {p, q} by {
      assert delegations[a] == p && delegations[b] == q;
    }
    assert (map x | x in pools :: pools[x].vrf) == map[p := params.vrf, q := params.vrf];
  }

  lemma FullDelegations(p: PoolId, q: PoolId, a: Credential, b: Credential)
    requires a != b
    ensures MarkDelegations(map[a := U64_MAX, b := U64_MAX], map[], map[a := p, b := q])
         == map[a := (p, U64_MAX), b := (q, U64_MAX)]
  {
  }

  lemma FullStakes(ds: map<Credential, (PoolId, Coin)>, p: PoolId, q: PoolId, a: Credential, b: Credential)
    requires p != q && a != b && ds == map[a := (p, U64_MAX), b := (q, U64_MAX)]
    ensures ClampedGroupSums(ds) == map[p := U64_MAX, q := U64_MAX] && Sum(Amounts(ds)) == 2 * U64_MAX
  {
    hide ClampedGroupSums;
    assert Amounts(ds) == map[a := U64_MAX, b := U64_MAX];
    SumOfTwo(a, b, U64_MAX, U64_MAX);
    FullPools(ds, p, q, a, b);
  }

  lemma FullPools(ds: map<Credential, (PoolId, Coin)>, p: PoolId, q: PoolId, a: Credential, b: Credential)
    requires p != q && a != b && ds == map[a := (p, U64_MAX), b := (q, U64_MAX)]
    ensures ClampedGroupSums(ds) == map[p := U64_MAX, q := U64_MAX]
  {
    hide GroupTotal;
    FullGroup(ds, p, a);
    FullGroup(ds, q, b);
    assert ds[a].0 == p && ds[b].0 == q;
  }

  lemma FullGroup(ds: map<Credential, (PoolId, Coin)>, p: PoolId, a: Credential)
    requires a in ds && ds[a] == (p, U64_MAX) && forall c :: c in ds && ds[c].0 == p ==> c == a
    ensures GroupTotal(ds, p) == U64_MAX
  {
    var none: map<Credential, int> := map[];
    assert Group(ds, p) == none[a := U64_MAX];
    SumUpdate(none, a, U64_MAX);
  }
}
