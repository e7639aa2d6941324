/**
 What one epoch boundary (crates/ade_ledger/src/rules.rs) does to each snapshot, each
 credential's mark stake and each reward account.
 */
module BoundaryLaws {
  import opened LedgerTypes
  import opened Sums
  import opened Snapshots
  import opened Certificates
  import opened RewardUpdates
  import opened EpochBoundary

  // Snapshots.

  /** The mark becomes the set, the set becomes go, and the old go is dropped. */
  lemma BoundaryRotates(i: BoundaryInput, target: U64)
    requires Boundary(i, target).Ok?
    ensures i.epochState.snapshots.Some? && Boundary(i, target).value.epochState.snapshots.Some?
    ensures var before, after := i.epochState.snapshots.value, Boundary(i, target).value.epochState.snapshots.value;
      && after.go == before.set_ && after.set_ == before.mark
      && after.mark == MarkSpec(i.base, RewardsAfterUpdate(i), i.certState.delegation.delegations,
                                i.certState.pool.pools)
  {
    hide MarkSpec, RewardsAfterUpdate, RewardsAfterReap, TreasuryBeforeDonations, Reap, ReturnToAccounts;
  }

  // Accounts.

  /** A registered account's reward. */
  function RewardFor(i: BoundaryInput, c: Credential): Coin {
    if c in i.certState.delegation.registrations then GetOr(i.update.credits, c) else 0
  }

  /** The header of a reward account tells a key from a script, and its length is fixed. */
  predicate Pays(account: seq<Byte>, c: Credential) {
    && |account| == 29 && account[1..] == c.hash
    && (c.ScriptHash? <==> account[0] / 16 % 2 == 1)
  }

  /** The header bytes in use: stake keys and stake scripts, on test networks and on mainnet. */
  lemma HeadersInUse(hash: Hash28)
    ensures forall c :: Pays([0xE0] + hash, c) <==> c == KeyHash(hash)
    ensures forall c :: Pays([0xE1] + hash, c) <==> c == KeyHash(hash)
    ensures forall c :: Pays([0xF0] + hash, c) <==> c == ScriptHash(hash)
    ensures forall c :: Pays([0xF1] + hash, c) <==> c == ScriptHash(hash)
  {
    forall h: Byte
      ensures ([h] + hash)[1..] == hash
    {
    }
  }

  /** What pool `p` has registered last: the staged parameters, if there are any. */
  function LatestParams(s: CertState, p: PoolId): PoolParams
    requires p in s.pool.pools
  {
    if p in s.pool.futurePools then s.pool.futurePools[p] else s.pool.pools[p]
  }

  /** The pools retiring at this boundary whose reward account is `c`. */
  function ReapedFor(s: CertState, target: U64, c: Credential): set<PoolId> {
    set p | p in s.pool.retiring && s.pool.retiring[p] == target && p in s.pool.pools
            && Pays(LatestParams(s, p).rewardAccount, c)
  }

  /** One pool deposit for each of them, if the account is registered. */
  function RefundFor(i: BoundaryInput, target: U64, c: Credential): nat {
    if c in i.certState.delegation.registrations then
      TimesDeposit(i.params.poolDeposit, |ReapedFor(i.certState, target, c)|)
    else
      0
  }

  function TimesDeposit(deposit: Coin, n: nat): nat {
    deposit * n
  }

  /** What governance returns to `c`. */
  function ReturnedTo(givebacks: seq<DepositReturn>, c: Credential): nat {
    if givebacks == [] then
      0
    else
      var last := givebacks[|givebacks| - 1];
      ReturnedTo(givebacks[..|givebacks| - 1], c)
        + if last.ToRewardAccount? && last.credential == c then last.amount else 0
  }

  lemma PaysIsCredential(account: seq<Byte>, c: Credential)
    ensures Pays(account, c) <==> RewardAccountCredential(account) == Some(c)
  {
  }

  lemma {:induction false} SumOfEqual<K>(m: map<K, int>, x: Coin)
    requires forall k :: k in m ==> m[k] == x
    ensures Sum(m) == TimesDeposit(x, |m|)
    decreases |m|
  {
    if m != map[] {
      var k := Pick(m);
      assert (m - {k}).Keys == m.Keys - {k};
      SumOfEqual(m - {k}, x);
      Distribute(x, |m - {k}|, 1);
    }
  }

  lemma UpdateCredits(i: BoundaryInput, c: Credential)
    ensures GetOr(RewardsAfterUpdate(i), c) == Min(GetOr(i.certState.delegation.rewards, c) + RewardFor(i, c), U64_MAX)
  {
    var d := i.certState.delegation;
    var targets := ToRegistered(d.registrations.Keys, AsTargets(i.update.credits));
    OneTarget(d.registrations.Keys, i.update.credits, c);
    CreditsOf(d.rewards, targets, c);
  }

  lemma OneTarget(registered: set<Credential>, credits: map<Credential, Coin>, c: Credential)
    ensures Sum(Group(ToRegistered(registered, AsTargets(credits)), c))
         == if c in registered then GetOr(credits, c) else 0
  {
    var g := Group(ToRegistered(registered, AsTargets(credits)), c);
    var none: map<Credential, int> := map[];
    if c in registered && c in credits {
      assert g == none[c := credits[c]];
      SumUpdate(none, c, credits[c]);
    } else {
      assert g == none;
    }
  }

  /** An account's balance after its credits, whether or not it was listed before. */
  lemma CreditsOf<K>(rewards: map<Credential, Coin>, d: map<K, (Credential, Coin)>, c: Credential)
    ensures GetOr(CreditAll(rewards, d), c) == Min(GetOr(rewards, c) + Sum(Group(d, c)), U64_MAX)
  {
    SumBounds(Group(d, c));
    if c !in CreditAll(rewards, d) {
      assert forall k :: k in d ==> d[k].0 != c;
      assert Group(d, c) == map[];
    }
  }

  lemma ReapCredits(i: BoundaryInput, target: U64, c: Credential)
    ensures GetOr(RewardsAfterReap(i, target), c)
         == Min(GetOr(RewardsAfterUpdate(i), c) + RefundFor(i, target, c), U64_MAX)
  {
    hide RewardsAfterUpdate, CreditAll, TimesDeposit;
    var registered := i.certState.delegation.registrations.Keys;
    var refunds := ToRegistered(registered, Refunds(i.certState, target, i.params.poolDeposit));
    RefundGroup(i.certState, target, i.params.poolDeposit, c);
    CreditsOf(RewardsAfterUpdate(i), refunds, c);
  }

  lemma RefundGroup(s: CertState, target: U64, deposit: Coin, c: Credential)
    ensures Sum(Group(ToRegistered(s.delegation.registrations.Keys, Refunds(s, target, deposit)), c))
         == if c in s.delegation.registrations then TimesDeposit(deposit, |ReapedFor(s, target, c)|) else 0
  {
    hide TimesDeposit;
    var g := Group(ToRegistered(s.delegation.registrations.Keys, Refunds(s, target, deposit)), c);
    if c in s.delegation.registrations {
      forall p
        ensures p in g <==> p in ReapedFor(s, target, c)
      {
        if p in s.pool.pools {
          PaysIsCredential(LatestParams(s, p).rewardAccount, c);
        }
      }
      SumOfEqual(g, deposit);
      assert g.Keys == ReapedFor(s, target, c);
    } else {
      var none: map<PoolId, int> := map[];
      assert g == none;
    }
  }

  lemma {:induction false} ReturnCredits(rewards: map<Credential, Coin>, givebacks: seq<DepositReturn>, c: Credential)
    ensures GetOr(ReturnToAccounts(rewards, givebacks), c)
         == Min(GetOr(rewards, c) + ReturnedTo(givebacks, c), U64_MAX)
  {
    if givebacks != [] {
      ReturnCredits(rewards, givebacks[..|givebacks| - 1], c);
    }
  }

  /**
   Every account's balance across the boundary, over the integers and clamped once: its
   reward and the deposits of the pools reaped for it if it is registered, and what
   governance returns to it.
   */
  lemma AccountAfterBoundary(i: BoundaryInput, target: U64, c: Credential)
    requires Boundary(i, target).Ok?
    ensures GetOr(Boundary(i, target).value.certState.delegation.rewards, c)
         == Min(GetOr(i.certState.delegation.rewards, c) + RewardFor(i, c) + RefundFor(i, target, c)
                + ReturnedTo(i.givebacks, c), U64_MAX)
  {
    hide MarkSpec, RewardsAfterUpdate, RewardsAfterReap, TreasuryBeforeDonations, Reap, ReturnToAccounts;
    hide RewardFor, RefundFor, ReturnedTo;
    UpdateCredits(i, c);
    ReapCredits(i, target, c);
    ReturnCredits(RewardsAfterReap(i, target), i.givebacks, c);
  }

  // The new mark.

  /** A credential's stake in the new mark: its base stake and its balance after the rewards. */
  function StakeAt(i: BoundaryInput, c: Credential): nat {
    Min(GetOr(i.base, c) + GetOr(i.certState.delegation.rewards, c) + RewardFor(i, c), U64_MAX)
  }

  /** The mark holds exactly the delegated credentials that have stake, each with that stake and its pool. */
  lemma MarkAfterBoundary(i: BoundaryInput, target: U64, c: Credential)
    requires Boundary(i, target).Ok?
    ensures Boundary(i, target).value.epochState.snapshots.Some?
    ensures var mark := Boundary(i, target).value.epochState.snapshots.value.mark;
      var delegations := i.certState.delegation.delegations;
      && (c in mark.delegations <==> c in delegations && StakeAt(i, c) > 0)
      && (c in mark.delegations ==> mark.delegations[c] == (delegations[c], StakeAt(i, c)))
  {
    hide RewardsAfterUpdate, RewardsAfterReap, TreasuryBeforeDonations, Reap, ReturnToAccounts, SnapshotPools;
    hide ClampedGroupSums, RewardFor;
    BoundaryRotates(i, target);
    UpdateCredits(i, c);
    StakeIsInstant(i, c);
  }

  lemma StakeIsInstant(i: BoundaryInput, c: Credential)
    requires GetOr(RewardsAfterUpdate(i), c)
          == Min(GetOr(i.certState.delegation.rewards, c) + RewardFor(i, c), U64_MAX)
    ensures InstantStake(i.base, RewardsAfterUpdate(i), c) == StakeAt(i, c)
  {
    hide RewardsAfterUpdate, RewardFor;
  }

  /**
   The mark freezes each active pool's parameters as they are before the boundary's reap,
   with the owners that delegate to it.
   */
  lemma ParamsFrozenAtBoundary(i: BoundaryInput, target: U64, p: PoolId, c: Credential)
    requires Boundary(i, target).Ok?
    ensures Boundary(i, target).value.epochState.snapshots.Some?
    ensures var frozen, pools := Boundary(i, target).value.epochState.snapshots.value.mark.poolParams,
                                 i.certState.pool.pools;
      && (p in frozen <==> p in pools && |pools[p].rewardAccount| == 29)
      && (p in frozen ==>
            && frozen[p].pledge == pools[p].pledge && frozen[p].cost == pools[p].cost
            && frozen[p].margin == pools[p].margin
            && (frozen[p].rewardAccount == c <==> Pays(pools[p].rewardAccount, c))
            && (c.KeyHash? ==>
                  (c.hash in frozen[p].selfDelegatedOwners <==>
                     c.hash in pools[p].owners && c in i.certState.delegation.delegations
                     && i.certState.delegation.delegations[c] == p)))
  {
    hide RewardsAfterUpdate, RewardsAfterReap, TreasuryBeforeDonations, Reap, ReturnToAccounts, MarkDelegations;
    hide ClampedGroupSums;
    BoundaryRotates(i, target);
    if p in i.certState.pool.pools {
      PaysIsCredential(i.certState.pool.pools[p].rewardAccount, c);
    }
  }
}
