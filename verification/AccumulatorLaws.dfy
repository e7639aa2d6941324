/**
 What every reachable accumulator keeps, and what follows at its boundaries: sound
 certificate and governance state, an exact leadership denominator, conserved ada.
 */
module AccumulatorLaws {
  import opened LedgerTypes
  import opened Sums
  import opened Snapshots
  import opened Certificates
  import opened CertificateLaws
  import opened EpochBoundary
  import opened AccumulatorCodecs
  import opened BlockScan
  import opened BlockEffects
  import opened Leadership
  import opened Accumulator
  import Runs = AccumulatorRuns
  import Gov = GovernanceCerts

  ghost predicate Sound(a: Accumulator) {
    SoundPair(CertAndGov(a.certState, a.gov))
  }

  // Boundaries keep the state sound.

  lemma MoreRewardsKeepCoherent(s: CertState, rewards: map<Credential, Coin>)
    requires Coherent(s) && s.delegation.rewards.Keys <= rewards.Keys
    ensures Coherent(WithRewards(s, rewards))
  {
  }

  lemma {:induction false} ReturnsKeepAccounts(rewards: map<Credential, Coin>, givebacks: seq<DepositReturn>)
    ensures rewards.Keys <= ReturnToAccounts(rewards, givebacks).Keys
  {
    if givebacks != [] {
      ReturnsKeepAccounts(rewards, givebacks[..|givebacks| - 1]);
    }
  }

  lemma CreditsKeepAccounts<K>(rewards: map<Credential, Coin>, d: map<K, (Credential, Coin)>)
    ensures rewards.Keys <= CreditAll(rewards, d).Keys
  {
  }

  lemma BoundaryKeepsCoherent(i: BoundaryInput, target: U64)
    requires Coherent(i.certState) && Boundary(i, target).Ok?
    ensures Coherent(Boundary(i, target).value.certState)
  {
    hide Coherent, Reap, CreditAll, MarkSpec, TreasuryBeforeDonations, ReturnToAccounts;
    var d := i.certState.delegation;
    StepKeepsCoherent(i.certState, ReapStep(target));
    CreditsKeepAccounts(d.rewards, ToRegistered(d.registrations.Keys, AsTargets(i.update.credits)));
    CreditsKeepAccounts(RewardsAfterUpdate(i),
                        ToRegistered(d.registrations.Keys, Refunds(i.certState, target, i.params.poolDeposit)));
    ReturnsKeepAccounts(RewardsAfterReap(i, target), i.givebacks);
    ReapKeepsRewards(i.certState, target);
    MoreRewardsKeepCoherent(Reap(i.certState, target), ReturnToAccounts(RewardsAfterReap(i, target), i.givebacks));
  }

  lemma ReapKeepsRewards(s: CertState, epoch: U64)
    ensures Reap(s, epoch).delegation.rewards == s.delegation.rewards
  {
  }

  lemma CrossKeepsSound(w: World, a: Accumulator, target: U64, ctx: Context)
    requires Sound(a) && Cross(w, a, target, ctx).Ok?
    ensures Sound(Cross(w, a, target, ctx).value.acc)
  {
    hide Coherent, Gov.NoDanglingVotes, Stage, Boundary, Cross;
    CrossIsPrepared(w, a, target, ctx);
    Runs.StageEffect(w, a, target);
    var p := Prepare(w, a, target, ctx).value;
    MoreRewardsKeepCoherent(a.certState, p.staged.acc.certState.delegation.rewards);
    BoundaryKeepsCoherent(p.input, target);
    if a.gov.Some? {
      ProposalsDoNotMatter(a.gov.value, p.plan.proposals);
    }
  }

  lemma ProposalsDoNotMatter(g: Gov.GovState, proposals: seq<Gov.Proposal>)
    requires Gov.NoDanglingVotes(g)
    ensures Gov.NoDanglingVotes(g.(proposals := proposals))
  {
  }

  // Blocks keep the state sound.

  lemma {:induction false} WithdrawAllKeepsCoherent(s: CertState, creds: seq<Credential>)
    requires Coherent(s)
    ensures Coherent(WithdrawAll(s, creds))
  {
    if creds != [] {
      var n := |creds| - 1;
      WithdrawAllKeepsCoherent(s, creds[..n]);
      StepKeepsCoherent(WithdrawAll(s, creds[..n]), WithdrawStep(creds[n]));
    }
  }

  lemma WithinKeepsSound(a: Accumulator, b: Block, ctx: Context, resolver: Option<Resolver>)
    requires Sound(a) && b.ConwayBlock? && WithinEpoch(a, b, ctx, resolver).Ok?
    ensures Sound(WithinEpoch(a, b, ctx, resolver).value)
  {
    hide Coherent, Gov.NoDanglingVotes, Scan, BlockCerts, BlockGovernance, DecodeIndices, LenientIndices, WithdrawAll;
    var indices := DecodeIndices(b.invalidField, |b.txs|).value;
    var before := CertAndGov(a.certState, a.gov);
    BlockCertsKeepSound(before, b.txs, LenientIndices(b.invalidField), a.params.keyDeposit, CertEnv(a));
    var certs := BlockCerts(before, b.txs, LenientIndices(b.invalidField), a.params.keyDeposit, CertEnv(a)).value;
    if certs.gov.Some? {
      GovernanceKeepsDelegations(certs.gov.value, b.txs, Elements(indices), ctx.blockEpoch);
      var after := BlockGovernance(certs.gov.value, b.txs, Elements(indices), ctx.blockEpoch).value;
      ProposalsDoNotMatter(certs.gov.value, after.proposals);
    }
    WithdrawAllKeepsCoherent(certs.cert, Scan(b.txs, Elements(indices), resolver).value.withdrawals);
  }

  /** Every reachable accumulator is sound: no delegation dangles and no vote delegation names a missing DRep. */
  lemma {:induction false} RunKeepsSound(w: World, s: Accumulator, events: seq<Runs.Event>)
    requires Sound(s) && Runs.Run(w, s, events).Ok?
    ensures Sound(Runs.Run(w, s, events).value)
  {
    hide Cross, WithinEpoch, Sound;
    if events != [] {
      var n := |events| - 1;
      RunKeepsSound(w, s, events[..n]);
      var a := Runs.Run(w, s, events[..n]).value;
      match events[n]
      case Enter(ctx) => CrossKeepsSound(w, a, a.epochState.epoch + 1, ctx);
      case Apply(i) => WithinKeepsSound(a, i.block, i.ctx, i.resolver);
    }
  }

  // The leadership denominator.

  /** The reward balances that the mark of a crossing is built from. */
  ghost function MarkRewards(w: World, a: Accumulator, target: U64, ctx: Context): map<Credential, Coin> {
    match Prepare(w, a, target, ctx)
    case None => map[]
    case Some(p) => RewardsAfterUpdate(p.input)
  }

  function BaseStake(ctx: Context): map<Credential, Coin> {
    if ctx.boundaryMark.Some? then ctx.boundaryMark.value else map[]
  }

  /** The stakes of the mark a crossing builds: base stake and post-reward balances of the delegations held. */
  ghost function MarkedStakes(w: World, a: Accumulator, target: U64, ctx: Context): map<Credential, (PoolId, Coin)> {
    MarkDelegations(BaseStake(ctx), MarkRewards(w, a, target, ctx), a.certState.delegation.delegations)
  }

  lemma CrossFreezesItsMark(w: World, a: Accumulator, target: U64, ctx: Context, c: Crossed)
    requires Cross(w, a, target, ctx) == Ok(c)
    ensures FromMark(c.frozen, BaseStake(ctx), MarkRewards(w, a, target, ctx),
                     a.certState.delegation.delegations, a.certState.pool.pools)
    ensures c.acc.epochState.snapshots.Some?
    ensures c.acc.epochState.snapshots.value.mark
         == MarkSpec(BaseStake(ctx), MarkRewards(w, a, target, ctx), a.certState.delegation.delegations,
                     a.certState.pool.pools)
    ensures a.epochState.snapshots.Some?
    ensures c.acc.epochState.snapshots.value.set_ == a.epochState.snapshots.value.mark
    ensures c.acc.epochState.snapshots.value.go == a.epochState.snapshots.value.set_
  {
    hide MarkSpec, RewardsAfterUpdate, RewardsAfterReap, TreasuryBeforeDonations, Reap, ReturnToAccounts, Stage;
    Runs.StageEffect(w, a, target);
  }

  lemma CoherentNeverDangles(s: CertState, base: map<Credential, Coin>, rewards: map<Credential, Coin>)
    requires Coherent(s)
    ensures var ds := MarkDelegations(base, rewards, s.delegation.delegations);
      !Dangles(ds, s.pool.pools) && Backed(ds, s.pool.pools.Keys) == ds
  {
  }

  lemma FreezeIsExact(w: World, a: Accumulator, target: U64, ctx: Context, c: Crossed, source: Lineage)
    requires Coherent(a.certState) && Cross(w, a, target, ctx) == Ok(c)
    ensures var ds := MarkedStakes(w, a, target, ctx);
      Sum(ActiveStakes(Freeze(c.frozen, source))) == c.frozen.totalActiveStake <==>
        Held(ds) <= U64_MAX || |PoolsOf(ds)| == 1
  {
    hide Freeze, ActiveStakes, FromMark, Coherent, Dangles, MarkDelegations, Backed, PoolsOf, Held;
    hide Cross, MarkRewards;
    CrossFreezesItsMark(w, a, target, ctx, c);
    CoherentNeverDangles(a.certState, BaseStake(ctx), MarkRewards(w, a, target, ctx));
    FrozenStakesAreTotal(c.frozen, source, BaseStake(ctx), MarkRewards(w, a, target, ctx),
                         a.certState.delegation.delegations, a.certState.pool.pools);
  }

  /**
   At every boundary of every run from a sound seed, the frozen stakes add up to the
   denominator that is carried beside them if and only if what the delegators hold fits
   in 64 bits or all of them chose one pool.
   */
  lemma FreezeIsExactOnEveryRun(
    w: World, s: Accumulator, events: seq<Runs.Event>, a: Accumulator, target: U64, ctx: Context, c: Crossed,
    source: Lineage)
    requires Sound(s) && Runs.Run(w, s, events) == Ok(a) && Cross(w, a, target, ctx) == Ok(c)
    ensures var ds := MarkedStakes(w, a, target, ctx);
      Sum(ActiveStakes(Freeze(c.frozen, source))) == c.frozen.totalActiveStake <==>
        Held(ds) <= U64_MAX || |PoolsOf(ds)| == 1
  {
    hide Cross, Freeze, ActiveStakes, Coherent, MarkedStakes, PoolsOf, Held;
    RunKeepsSound(w, s, events);
    FreezeIsExact(w, a, target, ctx, c, source);
  }

  /** A boundary keeps all three snapshots well formed exactly when it clamps no pool's stake. */
  lemma CrossKeepsSnapshots(w: World, a: Accumulator, target: U64, ctx: Context, c: Crossed)
    requires Cross(w, a, target, ctx) == Ok(c) && WellFormedSnapshots(a)
    ensures c.acc.epochState.snapshots.Some?
    ensures WellFormedSnapshots(c.acc) <==> NoPoolClamped(MarkedStakes(w, a, target, ctx))
  {
    hide Cross, MarkSpec, WellFormed, NoPoolClamped, MarkRewards, FromMark;
    CrossFreezesItsMark(w, a, target, ctx, c);
    MarkIsWellFormed(BaseStake(ctx), MarkRewards(w, a, target, ctx),
                     a.certState.delegation.delegations, a.certState.pool.pools);
  }

  ghost predicate WellFormedSnapshots(a: Accumulator) {
    a.epochState.snapshots.Some? ==> AllWellFormed(a.epochState.snapshots.value)
  }

  /** The boundary at `e`, if it is one, clamps no pool's stake. */
  ghost predicate Unclamped(w: World, a: Accumulator, e: Runs.Event) {
    e.Enter? && a.epochState.epoch < U64_MAX ==>
      NoPoolClamped(MarkedStakes(w, a, a.epochState.epoch + 1, e.ctx))
  }

  ghost predicate NeverClamped(w: World, s: Accumulator, events: seq<Runs.Event>) {
    forall n :: 0 <= n < |events| && Runs.Run(w, s, events[..n]).Ok? ==>
      Unclamped(w, Runs.Run(w, s, events[..n]).value, events[n])
  }

  lemma NeverClampedInParts(w: World, s: Accumulator, events: seq<Runs.Event>, a: Accumulator)
    requires events != [] && Runs.Run(w, s, events[..|events| - 1]) == Ok(a)
    ensures NeverClamped(w, s, events) <==>
              NeverClamped(w, s, events[..|events| - 1]) && Unclamped(w, a, events[|events| - 1])
  {
    hide Runs.Run, Unclamped;
    var init := events[..|events| - 1];
    assert forall n :: 0 <= n < |init| ==> init[..n] == events[..n] && init[n] == events[n];
  }

  /** The snapshots are well formed at every point of the run. */
  ghost predicate AlwaysWellFormed(w: World, s: Accumulator, events: seq<Runs.Event>) {
    forall n :: 0 <= n <= |events| && Runs.Run(w, s, events[..n]).Ok? ==>
      WellFormedSnapshots(Runs.Run(w, s, events[..n]).value)
  }

  lemma AlwaysWellFormedInParts(w: World, s: Accumulator, events: seq<Runs.Event>)
    requires events != [] && Runs.Run(w, s, events).Ok?
    ensures AlwaysWellFormed(w, s, events) <==>
              AlwaysWellFormed(w, s, events[..|events| - 1]) && WellFormedSnapshots(Runs.Run(w, s, events).value)
  {
    hide Runs.Run, WellFormedSnapshots;
    var init := events[..|events| - 1];
    assert events[..|events|] == events;
    assert forall n :: 0 <= n <= |init| ==> init[..n] == events[..n];
  }

  /**
   Every accumulator on a run has well-formed snapshots, so that every boundary pays a go
   snapshot whose pool stakes are its delegators' sums, if and only if no boundary of
   the run clamps a pool's stake.
   */
  lemma {:induction false} RunKeepsSnapshots(w: World, s: Accumulator, events: seq<Runs.Event>)
    requires WellFormedSnapshots(s) && Runs.Run(w, s, events).Ok?
    ensures AlwaysWellFormed(w, s, events) <==> NeverClamped(w, s, events)
  {
    hide Cross, WithinEpoch, WellFormedSnapshots, NeverClamped, MarkedStakes, NoPoolClamped;
    if events == [] {
      assert events[..0] == [];
      assert NeverClamped(w, s, []) by { NothingClamped(w, s); }
    } else {
      var n := |events| - 1;
      RunKeepsSnapshots(w, s, events[..n]);
      var a := Runs.Run(w, s, events[..n]).value;
      NeverClampedInParts(w, s, events, a);
      AlwaysWellFormedInParts(w, s, events);
      if AlwaysWellFormed(w, s, events[..n]) {
        assert events[..n][..n] == events[..n];
        StepKeepsSnapshots(w, a, events[n]);
      }
    }
  }

  lemma NothingClamped(w: World, s: Accumulator)
    ensures NeverClamped(w, s, [])
  {
  }

  lemma StepKeepsSnapshots(w: World, a: Accumulator, e: Runs.Event)
    requires WellFormedSnapshots(a) && Runs.Step(w, a, e).Ok?
    ensures WellFormedSnapshots(Runs.Step(w, a, e).value) <==> Unclamped(w, a, e)
  {
    hide Cross, WithinEpoch, AllWellFormed, MarkedStakes, NoPoolClamped;
    match e
    case Enter(ctx) =>
      CrossKeepsSnapshots(w, a, a.epochState.epoch + 1, ctx, Cross(w, a, a.epochState.epoch + 1, ctx).value);
    case Apply(i) => Runs.WithinKeepsParams(a, i);
  }

  // Discarded transactions.

  /**
   A block's certificates end as if its discarded transactions had not been in it. The
   walk reads the invalid set leniently, but it only runs where the strict reading
   succeeded, and there the two agree.
   */
  lemma BlockCertsSkipDiscarded(a: Accumulator, b: Block, ctx: Context, resolver: Option<Resolver>)
    requires b.ConwayBlock? && WithinEpoch(a, b, ctx, resolver).Ok?
    ensures var kept := Kept(b.txs, Elements(DecodeIndices(b.invalidField, |b.txs|).value));
      var before := CertAndGov(a.certState, a.gov);
      BlockCerts(before, b.txs, LenientIndices(b.invalidField), a.params.keyDeposit, CertEnv(a))
      == BlockCerts(before, kept, {}, a.params.keyDeposit, CertEnv(a))
  {
    hide Scan, BlockCerts, BlockGovernance, DecodeIndices, LenientIndices, Kept;
    LenientAgreesWithStrict(b.invalidField, |b.txs|);
    var invalid := Elements(DecodeIndices(b.invalidField, |b.txs|).value);
    assert LenientIndices(b.invalidField) == invalid;
    WalkSkipsInvalid(CertAndGov(a.certState, a.gov), b.txs, invalid, CertStep(a.params.keyDeposit, CertEnv(a)));
    CertsAreWalks(CertAndGov(a.certState, a.gov), b.txs, invalid, a.params.keyDeposit, CertEnv(a));
    CertsAreWalks(CertAndGov(a.certState, a.gov), Kept(b.txs, invalid), {}, a.params.keyDeposit, CertEnv(a));
  }

  lemma CertsAreWalks(
    s: CertAndGov, txs: seq<TxBody>, invalid: set<nat>, keyDeposit: Coin, env: Option<Gov.GovCertEnv>)
    ensures BlockCerts(s, txs, invalid, keyDeposit, env) == Walk(s, txs, invalid, CertStep(keyDeposit, env))
  {
  }
}
