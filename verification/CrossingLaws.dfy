/**
 What one crossing of the epoch accumulator (crates/ade_ledger/src/epoch_accumulator.rs)
 takes, installs and refuses.
 */
module CrossingLaws {
  import opened LedgerTypes
  import opened Snapshots
  import opened Certificates
  import opened RewardUpdates
  import opened EpochBoundary
  import opened BoundaryLaws
  import opened CanonicalMaps
  import opened SeedAuthority
  import opened AccumulatorCodecs
  import opened BlockScan
  import opened Leadership
  import opened Accumulator
  import Runs = AccumulatorRuns
  import Gov = GovernanceCerts

  // The pending authority.

  /** What an imported record adds to an account. */
  function ImportedReward(a: Accumulator, c: Credential): Coin {
    if a.pending.Some? && a.pending.value.Imported? then GetOr(ToMap(a.pending.value.rewardDelta), c) else 0
  }

  /**
   The authority is checked before anything is drawn: first that this is its boundary,
   then that its commitment is its own.
   */
  lemma AuthorityIsChecked(w: World, a: Accumulator, target: U64, ctx: Context)
    requires a.pending.Some? && ctx.boundaryMark.Some? && ctx.activeSlots > 0
    ensures var authority := a.pending.value;
      && (authority.targetEpoch + 1 != target ==>
            Cross(w, a, target, ctx) == Err(RupdWrongBoundary(authority.targetEpoch, target)))
      && (authority.targetEpoch + 1 == target && Commitment(w.hash, authority) != authority.commitment ==>
            Cross(w, a, target, ctx) == Err(RupdCommitmentMismatch))
      && (Cross(w, a, target, ctx).Ok? ==>
            authority.targetEpoch + 1 == target && Commitment(w.hash, authority) == authority.commitment)
  {
    hide Commitment, Settle;
  }

  /** Decoding makes the same comparison, so a decoded authority is never refused for its commitment. */
  lemma DecodedAuthorityIsCommitted(w: World, a: Accumulator, target: U64, ctx: Context, bytes: seq<Byte>)
    requires a.pending.Some? && Decode(bytes, w.hash) == Ok(a.pending.value)
    ensures Cross(w, a, target, ctx) != Err(RupdCommitmentMismatch)
  {
    hide Decode, Settle, Commitment, Encode;
    DecodesExactlyEncodings(bytes, w.hash, a.pending.value);
    NeverMismatched(w, a, target, ctx);
  }

  lemma NeverMismatched(w: World, a: Accumulator, target: U64, ctx: Context)
    requires a.pending.Some? && Commitment(w.hash, a.pending.value) == a.pending.value.commitment
    ensures Cross(w, a, target, ctx) != Err(RupdCommitmentMismatch)
  {
    hide Boundary, Commitment;
  }

  /** The balances after the authority: an imported record's rewards are added, account by account. */
  lemma StagedBalance(w: World, a: Accumulator, target: U64, c: Credential)
    requires Stage(w, a, target).Ok?
    ensures GetOr(Stage(w, a, target).value.acc.certState.delegation.rewards, c)
         == GetOr(a.certState.delegation.rewards, c) + ImportedReward(a, c)
  {
    hide Commitment;
  }

  // What the boundary is handed.

  /** The rewards calculated for a boundary: from the held pots, parameters and supply, on the go snapshot. */
  lemma CrossingIsFed(w: World, a: Accumulator, target: U64, ctx: Context)
    requires Prepare(w, a, target, ctx).Some?
    ensures a.epochState.snapshots.Some?
    ensures var p := Prepare(w, a, target, ctx).value;
      && w.rewards(RewardInputs(a.epochState.reserves, p.staged.fedFees, p.staged.fedBlocks,
                                a.epochState.snapshots.value.go, a.maxSupply, a.params, ctx.activeSlots))
         == Some(p.input.update)
      && p.input.epochState == a.epochState.(blockProduction := p.staged.fedBlocks, epochFees := p.staged.fedFees)
      && ctx.boundaryMark == Some(p.input.base)
      && p.input.certState == WithRewards(a.certState, p.staged.acc.certState.delegation.rewards)
      && p.input.params == a.params
      && p.input.givebacks == p.plan.givebacks && p.input.enacted == p.plan.enacted
  {
    hide Stage;
    Runs.StageEffect(w, a, target);
  }

  /** What governance decides for the state it is shown: the held one, with the staged certificate state. */
  function Decided(w: World, a: Accumulator, target: U64): Option<GovPlan>
    requires a.gov.Some? && Stage(w, a, target).Ok?
  {
    w.governance(a.gov.value, Stage(w, a, target).value.acc.certState, target)
  }

  /**
   An accepted crossing goes on with exactly the proposals governance decided on, returns
   the deposits it decided on, and changes nothing else of the governance state. Where
   governance is not tracked there is nothing to return.
   */
  lemma CrossInstallsPlan(w: World, a: Accumulator, target: U64, ctx: Context)
    requires Cross(w, a, target, ctx).Ok?
    ensures Prepare(w, a, target, ctx).Some? && Stage(w, a, target).Ok?
    ensures var after, p := Cross(w, a, target, ctx).value.acc, Prepare(w, a, target, ctx).value;
      if a.gov.None? then
        after.gov == None && p.input.givebacks == []
      else
        && Decided(w, a, target).Some?
        && after.gov == Some(a.gov.value.(proposals := Decided(w, a, target).value.proposals))
        && p.input.givebacks == Decided(w, a, target).value.givebacks
  {
    hide Stage, Boundary, Cross;
    CrossIsPrepared(w, a, target, ctx);
    Runs.StageEffect(w, a, target);
  }

  // What a crossing leaves.

  /** Snapshots rotate: the mark becomes the set and the set becomes go. */
  lemma CrossRotates(w: World, a: Accumulator, target: U64, ctx: Context)
    requires Cross(w, a, target, ctx).Ok?
    ensures a.epochState.snapshots.Some? && Cross(w, a, target, ctx).value.acc.epochState.snapshots.Some?
    ensures var before, after := a.epochState.snapshots.value,
                                 Cross(w, a, target, ctx).value.acc.epochState.snapshots.value;
      after.go == before.set_ && after.set_ == before.mark
  {
    hide Stage, Boundary, Cross;
    CrossIsPrepared(w, a, target, ctx);
    CrossingIsFed(w, a, target, ctx);
    BoundaryRotates(Prepare(w, a, target, ctx).value.input, target);
  }

  /**
   Every account's balance across a crossing: what an imported record adds, its reward and
   the deposits of the pools reaped for it if it is registered, and what governance returns.
   */
  lemma AccountAfterCrossing(w: World, a: Accumulator, target: U64, ctx: Context, c: Credential)
    requires Cross(w, a, target, ctx).Ok?
    ensures Prepare(w, a, target, ctx).Some?
    ensures var i := Prepare(w, a, target, ctx).value.input;
      GetOr(Cross(w, a, target, ctx).value.acc.certState.delegation.rewards, c)
      == Min(GetOr(a.certState.delegation.rewards, c) + ImportedReward(a, c) + RewardFor(i, c)
             + RefundFor(i, target, c) + ReturnedTo(i.givebacks, c), U64_MAX)
  {
    hide Stage, Boundary, Cross, RewardFor, RefundFor, ReturnedTo;
    CrossIsPrepared(w, a, target, ctx);
    CrossingIsFed(w, a, target, ctx);
    StagedBalance(w, a, target, c);
    AccountAfterBoundary(Prepare(w, a, target, ctx).value.input, target, c);
  }

  /**
   The mark of a crossing: the delegated credentials with stake, at their base stake plus
   their balance after the rewards and before refunds and returns.
   */
  lemma MarkAfterCrossing(w: World, a: Accumulator, target: U64, ctx: Context, c: Credential)
    requires Cross(w, a, target, ctx).Ok? && ctx.boundaryMark.Some?
    ensures Prepare(w, a, target, ctx).Some? && Cross(w, a, target, ctx).value.acc.epochState.snapshots.Some?
    ensures var mark, delegations := Cross(w, a, target, ctx).value.acc.epochState.snapshots.value.mark,
                                     a.certState.delegation.delegations;
      var stake := Min(GetOr(ctx.boundaryMark.value, c) + GetOr(a.certState.delegation.rewards, c)
                       + ImportedReward(a, c) + RewardFor(Prepare(w, a, target, ctx).value.input, c), U64_MAX);
      && (c in mark.delegations <==> c in delegations && stake > 0)
      && (c in mark.delegations ==> mark.delegations[c] == (delegations[c], stake))
  {
    hide Stage, Boundary, Cross, RewardFor;
    CrossIsPrepared(w, a, target, ctx);
    CrossingIsFed(w, a, target, ctx);
    StagedBalance(w, a, target, c);
    MarkAfterBoundary(Prepare(w, a, target, ctx).value.input, target, c);
  }

  /**
   Exactly when a prepared crossing is accepted: the boundary and the ratification record
   go through, a natively seeded boundary with blocks has a pot, an imported record's pots
   fit, and there is an epoch left to freeze leadership for.
   */
  lemma CrossAcceptedIff(w: World, a: Accumulator, target: U64, ctx: Context, p: Prepared)
    requires Prepare(w, a, target, ctx) == Some(p) && ctx.activeSlots > 0
    ensures Cross(w, a, target, ctx).Ok? <==>
              && Boundary(p.input, target).Ok?
              && w.ratifies(Boundary(p.input, target).value, PlannedGov(a, p.plan))
              && !(SeededNatively(a) && MadeBlocks(a) && p.input.update.pot == 0)
              && DrawnReserves(a) <= Boundary(p.input, target).value.epochState.reserves
              && Boundary(p.input, target).value.epochState.treasury + AddedTreasury(a) <= U64_MAX
              && target < U64_MAX
  {
    hide Boundary, Stage;
    StagedPots(w, a, target);
    Runs.StageEffect(w, a, target);
  }

  /** A natively seeded boundary that has blocks but no pot is refused as such. */
  lemma EmptyPotIsRefused(w: World, a: Accumulator, target: U64, ctx: Context, p: Prepared)
    requires Prepare(w, a, target, ctx) == Some(p) && ctx.activeSlots > 0
    requires Boundary(p.input, target).Ok? && w.ratifies(Boundary(p.input, target).value, PlannedGov(a, p.plan))
    ensures Cross(w, a, target, ctx) == Err(ZeroRewardPot(target)) <==>
              SeededNatively(a) && MadeBlocks(a) && p.input.update.pot == 0
  {
    hide Boundary, Stage;
    StagedPots(w, a, target);
    Runs.StageEffect(w, a, target);
  }

  function PlannedGov(a: Accumulator, plan: GovPlan): Option<Gov.GovState> {
    if a.gov.None? then None else Some(a.gov.value.(proposals := plan.proposals))
  }

  predicate SeededNatively(a: Accumulator) {
    a.pending.Some? && a.pending.value.Native?
  }

  predicate MadeBlocks(a: Accumulator) {
    exists p :: p in a.prevBlocks && a.prevBlocks[p] > 0
  }

  function DrawnReserves(a: Accumulator): Coin {
    if a.pending.Some? && a.pending.value.Imported? then a.pending.value.deltaReserves else 0
  }

  function AddedTreasury(a: Accumulator): Coin {
    if a.pending.Some? && a.pending.value.Imported? then a.pending.value.deltaTreasury else 0
  }

  lemma StagedPots(w: World, a: Accumulator, target: U64)
    requires Stage(w, a, target).Ok?
    ensures var st := Stage(w, a, target).value;
      && st.drawnReserves == DrawnReserves(a) && st.addedTreasury == AddedTreasury(a)
      && st.seeded == SeededNatively(a) && st.acc.prevBlocks == a.prevBlocks
  {
    hide Commitment;
  }

  /** What a crossing leaves in the pots: the boundary's, less and plus an imported record's. */
  lemma PotsAfterCrossing(w: World, a: Accumulator, target: U64, ctx: Context)
    requires Cross(w, a, target, ctx).Ok?
    ensures Prepare(w, a, target, ctx).Some? && Boundary(Prepare(w, a, target, ctx).value.input, target).Ok?
    ensures var out := Boundary(Prepare(w, a, target, ctx).value.input, target).value.epochState;
      var after := Cross(w, a, target, ctx).value.acc.epochState;
      && after.reserves == out.reserves - DrawnReserves(a)
      && after.treasury == out.treasury + AddedTreasury(a)
  {
    hide Boundary, Stage, Cross;
    CrossIsPrepared(w, a, target, ctx);
    StagedPots(w, a, target);
  }

  // Seeding.

  /**
   A bootstrapped seed: exactly when it is accepted, and whose blocks are whose. The
   imported counts are those of the epoch before, the given ones those of the seed's own.
   */
  lemma SeedIsBootstrap(
    b: Bootstrap, epoch: U64, pending: Option<SeedRewardAuthority>, blocks: map<PoolId, U64>)
    ensures var s := SeedFromBootstrap(b, epoch, pending, blocks);
      && (s.Ok? <==> b.era >= 7 && b.epochState.epoch == epoch && b.certState.Some? && b.gov.Some?)
      && (s.Ok? ==>
            && s.value.epochState.epoch == epoch && s.value.epochState.blockProduction == blocks
            && s.value.prevBlocks == b.epochState.blockProduction && s.value.prevFees == 0
            && s.value.epochState.epochFees == b.epochState.epochFees
            && s.value.epochState.snapshots == b.epochState.snapshots
            && s.value.epochState.reserves == b.epochState.reserves
            && s.value.epochState.treasury == b.epochState.treasury
            && Some(s.value.certState) == b.certState && Some(s.value.gov) == b.gov
            && s.value.params == b.params && s.value.maxSupply == b.maxSupply
            && s.value.drepActivity == b.drepActivity && s.value.pending == pending)
  {
  }

  /**
   The first boundary of a bootstrapped ledger pays the blocks imported with it, with the
   fees its native authority names, and its second pays the blocks of the seed epoch.
   */
  lemma SeedBlocksArePaid(
    b: Bootstrap, epoch: U64, pending: Option<SeedRewardAuthority>, blocks: map<PoolId, U64>, s: Accumulator,
    w: World, ctx: Context)
    requires SeedFromBootstrap(b, epoch, pending, blocks) == Ok(s) && epoch < U64_MAX
    requires Prepare(w, s, epoch + 1, ctx).Some?
    ensures var p := Prepare(w, s, epoch + 1, ctx).value;
      match pending
      case None => p.staged.fedBlocks == b.epochState.blockProduction && p.staged.fedFees == 0
      case Some(Native(_, _, _, _, fee, _)) =>
        p.staged.fedBlocks == b.epochState.blockProduction && p.staged.fedFees == fee
      case Some(Imported(_, _, _, _, _, _, _, _, _)) => p.staged.fedBlocks == map[] && p.staged.fedFees == 0
    ensures Cross(w, s, epoch + 1, ctx).Ok? ==> Cross(w, s, epoch + 1, ctx).value.acc.prevBlocks == blocks
  {
    hide Commitment, Cross, BoundaryInputFor;
    if Cross(w, s, epoch + 1, ctx).Ok? {
      Runs.CrossEffect(w, s, epoch + 1, ctx);
    }
  }

  // Frozen leadership.

  /**
   What a crossing freezes for the epoch after: every pool somebody delegates to that is
   active before the reap, with its stake in the new mark and its active VRF key.
   */
  lemma FrozenAfterCrossing(w: World, a: Accumulator, target: U64, ctx: Context, source: Lineage, p: PoolId)
    requires Cross(w, a, target, ctx).Ok?
    ensures Cross(w, a, target, ctx).value.acc.epochState.snapshots.Some?
    ensures var c := Cross(w, a, target, ctx).value;
      var d, mark := Freeze(c.frozen, source), c.acc.epochState.snapshots.value.mark;
      && d.targetEpoch == target + 1 && d.source == source && d.totalActiveStake == TotalActiveStake(mark)
      && (p.hash in d.pools <==>
            p in a.certState.pool.pools && p in a.certState.delegation.delegations.Values)
      && (p.hash in d.pools ==>
            && d.pools[p.hash].activeStake == GetOr(mark.poolStakes, p)
            && d.pools[p.hash].vrf == a.certState.pool.pools[p].vrf)
  {
    hide Stage, Boundary, BoundaryInputFor, Prepare, ReadBack;
    CrossRotates(w, a, target, ctx);
  }
}
