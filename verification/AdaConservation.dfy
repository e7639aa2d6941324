/**
 Ada over whole runs of the accumulator: what blocks bring in and take out, and what the
 boundaries move between pots, fee buffers and reward accounts.
 */
module AdaConservation {
  import opened LedgerTypes
  import opened Sums
  import opened Snapshots
  import opened Certificates
  import opened Deposits
  import opened Rationals
  import opened RewardFormula
  import opened RewardUpdates
  import opened EpochBoundary
  import opened CanonicalMaps
  import opened SeedAuthority
  import opened AccumulatorCodecs
  import opened BlockScan
  import opened BlockEffects
  import opened Accumulator
  import opened AccumulatorLaws
  import Runs = AccumulatorRuns
  import Gov = GovernanceCerts

  // Boundaries.

  /** The lovelace of the pots, both fee buffers and the reward accounts. */
  ghost function HeldAda(a: Accumulator): int {
    Ada(a.epochState, a.certState, a.epochState.epochFees + a.prevFees)
  }

  /** The calculation draws what it hands out, on every feasible input, as the native one does. */
  ghost predicate SoundCalculation(w: World) {
    forall i {:trigger w.rewards(i)} ::
      FeasibleInputs(i) && w.rewards(i).Some? ==> SoundUpdate(i.reserves, i.fees, w.rewards(i).value)
  }

  /** What an imported record adds beyond what it takes; zero when the record balances. */
  ghost function Imbalance(a: Accumulator): int {
    match a.pending
    case Some(Imported(_, _, _, _, treasury, reserves, fees, delta, _)) =>
      treasury + Sum(ToMap(delta)) - reserves - fees
    case _ => 0
  }

  lemma AddRewardsSum(rewards: map<Credential, Coin>, delta: map<Credential, Coin>)
    requires AddRewards(rewards, delta).Some?
    ensures Sum(AddRewards(rewards, delta).value) == Sum(rewards) + Sum(delta)
  {
    var after := AddRewards(rewards, delta).value;
    var x := map c | c in after :: GetOr(rewards, c) as int;
    var y := map c | c in after :: GetOr(delta, c) as int;
    SumIgnoresZeros(rewards, x);
    SumIgnoresZeros(delta, y);
    SumPlus(x, y, after);
  }

  /** Staging moves the seed's fees and, for an imported record, its rewards. */
  lemma StageAda(w: World, a: Accumulator, target: U64)
    requires a.pending.Some? ==> a.prevFees == 0
    requires Stage(w, a, target).Ok?
    ensures var st := Stage(w, a, target).value;
      Ada(FedState(st), st.acc.certState, st.fedFees) + st.acc.epochState.epochFees + st.addedTreasury
        - st.drawnReserves
      == HeldAda(a) + Imbalance(a)
  {
    hide Commitment, AddRewards, Sum;
    match a.pending
    case Some(Imported(_, _, _, _, _, _, _, delta, _)) =>
      AddRewardsSum(a.certState.delegation.rewards, ToMap(delta));
    case _ =>
  }

  /**
   Crossing a boundary creates and destroys no ada: fees pass from one buffer to the
   next and into the pots, rewards into accounts, and the only inflow is returned
   deposits. An imported record may add only its own imbalance.
   */
  lemma CrossConservesAda(w: World, a: Accumulator, target: U64, ctx: Context, c: Crossed, p: Prepared)
    requires SoundCalculation(w)
    requires a.pending.Some? ==> a.prevFees == 0
    requires Cross(w, a, target, ctx) == Ok(c) && Prepare(w, a, target, ctx) == Some(p)
    requires p.staged.acc.epochState.snapshots.Some?
    requires FeasibleInputs(FedInputs(p.staged, p.staged.acc.epochState.snapshots.value.go, ctx.activeSlots))
    requires Fits(p.input, target, p.staged.fedFees)
    ensures HeldAda(c.acc) == HeldAda(a) + Inflow(p.input, target) + Imbalance(a)
  {
    hide Cross, Stage, Boundary, FeasibleInputs, Inflow, Imbalance, Fits, PlanFor;
    CrossIsPrepared(w, a, target, ctx);
    StageAda(w, a, target);
    BoundaryConservesAda(p.input, target, p.staged.fedFees);
    BoundaryEmptiesBuffers(p.input, target);
  }

  lemma BoundaryEmptiesBuffers(i: BoundaryInput, target: U64)
    requires Boundary(i, target).Ok?
    ensures Boundary(i, target).value.epochState.epochFees == 0
  {
  }

  /** A world whose reward calculation is the native one. */
  ghost predicate Native(w: World) {
    forall i {:trigger w.rewards(i)} :: w.rewards(i) == NativeUpdate(i)
  }

  ghost function NativeWorld(w: World): World {
    w.(rewards := i => NativeUpdate(i))
  }

  lemma NativeWorldIsNative(w: World)
    ensures Native(NativeWorld(w)) && SoundCalculation(NativeWorld(w))
  {
    NativeIsSound(NativeWorld(w));
  }

  lemma NativeIsSound(w: World)
    requires Native(w)
    ensures SoundCalculation(w)
  {
    hide NativeUpdate, FeasibleInputs, SoundUpdate;
    forall i | FeasibleInputs(i) && w.rewards(i).Some?
      ensures SoundUpdate(i.reserves, i.fees, w.rewards(i).value)
    {
      assert w.rewards(i) == NativeUpdate(i);
      NativeUpdateIsSound(i);
    }
  }

  // Blocks.

  /** The balance a certificate takes out of the reward accounts: opening or closing one clears it. */
  function Released(s: CertState, cert: ConwayCert): nat {
    if TouchedAccount(cert).Some? then GetOr(s.delegation.rewards, TouchedAccount(cert).value) else 0
  }

  lemma CertReleases(s: CertState, cert: ConwayCert, keyDeposit: Coin)
    requires ApplyConwayCert(s, cert, keyDeposit).Ok?
    ensures var t := ApplyConwayCert(s, cert, keyDeposit).value.delegation.rewards;
      Sum(t) == Sum(s.delegation.rewards) - Released(s, cert)
  {
    var r := s.delegation.rewards;
    match TouchedAccount(cert)
    case Some(c) =>
      RewardsAfterTouch(s, cert, keyDeposit, c);
      SumUpdate(r, c, 0);
      if c in r {
        SumRemove(r, c);
      } else {
        assert r - {c} == r;
      }
    case None => RewardsUntouched(s, cert, keyDeposit);
  }

  lemma RewardsAfterTouch(s: CertState, cert: ConwayCert, keyDeposit: Coin, c: Credential)
    requires ApplyConwayCert(s, cert, keyDeposit).Ok? && TouchedAccount(cert) == Some(c)
    ensures var r, t := s.delegation.rewards, ApplyConwayCert(s, cert, keyDeposit).value.delegation.rewards;
      t == r[c := 0] || t == r - {c}
  {
  }

  lemma RewardsUntouched(s: CertState, cert: ConwayCert, keyDeposit: Coin)
    requires ApplyConwayCert(s, cert, keyDeposit).Ok? && TouchedAccount(cert) == None
    ensures ApplyConwayCert(s, cert, keyDeposit).value.delegation.rewards == s.delegation.rewards
  {
  }

  function ReleasedByTx(
    s: CertAndGov, certs: seq<ConwayCert>, keyDeposit: Coin, env: Option<Gov.GovCertEnv>): nat
  {
    if certs == [] then
      0
    else
      var n := |certs| - 1;
      ReleasedByTx(s, certs[..n], keyDeposit, env)
      + match ApplyTxCerts(s, certs[..n], keyDeposit, env) {
          case None => 0
          case Some(t) => Released(t.cert, certs[n])
        }
  }

  lemma {:induction false} TxReleases(
    s: CertAndGov, certs: seq<ConwayCert>, keyDeposit: Coin, env: Option<Gov.GovCertEnv>)
    requires ApplyTxCerts(s, certs, keyDeposit, env).Some?
    ensures Sum(ApplyTxCerts(s, certs, keyDeposit, env).value.cert.delegation.rewards)
         == Sum(s.cert.delegation.rewards) - ReleasedByTx(s, certs, keyDeposit, env)
  {
    hide ApplyConwayCert, Gov.ApplyGovCert, Released;
    if certs != [] {
      var n := |certs| - 1;
      TxReleases(s, certs[..n], keyDeposit, env);
      CertReleases(ApplyTxCerts(s, certs[..n], keyDeposit, env).value.cert, certs[n], keyDeposit);
    }
  }

  /** What the kept transactions' certificates release. */
  function ReleasedByBlock(
    s: CertAndGov, txs: seq<TxBody>, invalid: set<nat>, keyDeposit: Coin, env: Option<Gov.GovCertEnv>): nat
  {
    if txs == [] then
      0
    else
      var n := |txs| - 1;
      ReleasedByBlock(s, txs[..n], invalid, keyDeposit, env)
      + match BlockCerts(s, txs[..n], invalid, keyDeposit, env) {
          case None => 0
          case Some(t) => if n in invalid then 0 else ReleasedByTx(t, SeenCerts(txs[n]), keyDeposit, env)
        }
  }

  lemma {:induction false} BlockReleases(
    s: CertAndGov, txs: seq<TxBody>, invalid: set<nat>, keyDeposit: Coin, env: Option<Gov.GovCertEnv>)
    requires BlockCerts(s, txs, invalid, keyDeposit, env).Some?
    ensures Sum(BlockCerts(s, txs, invalid, keyDeposit, env).value.cert.delegation.rewards)
         == Sum(s.cert.delegation.rewards) - ReleasedByBlock(s, txs, invalid, keyDeposit, env)
  {
    hide ApplyTxCerts, ReleasedByTx;
    if txs != [] {
      var n := |txs| - 1;
      BlockReleases(s, txs[..n], invalid, keyDeposit, env);
      if n !in invalid {
        TxReleases(BlockCerts(s, txs[..n], invalid, keyDeposit, env).value, SeenCerts(txs[n]), keyDeposit, env);
      }
    }
  }

  /** The balances withdrawals zero, each as it stands when its turn comes. */
  function WithdrawnBalance(s: CertState, creds: seq<Credential>): nat {
    if creds == [] then
      0
    else
      var n := |creds| - 1;
      WithdrawnBalance(s, creds[..n]) + GetOr(WithdrawAll(s, creds[..n]).delegation.rewards, creds[n])
  }

  lemma {:induction false} WithdrawalsTake(s: CertState, creds: seq<Credential>)
    ensures Sum(WithdrawAll(s, creds).delegation.rewards)
         == Sum(s.delegation.rewards) - WithdrawnBalance(s, creds)
  {
    if creds != [] {
      var n := |creds| - 1;
      WithdrawalsTake(s, creds[..n]);
      SumUpdate(WithdrawAll(s, creds[..n]).delegation.rewards, creds[n], 0);
    }
  }

  function Donations(i: Runs.BlockInput): nat {
    if i.block.ConwayBlock? then Donated(Kept(i.block.txs, Runs.InvalidOf(i))) else 0
  }

  /** What leaves the reward accounts with a block: accounts its certificates clear, and its withdrawals. */
  function Outflow(a: Accumulator, i: Runs.BlockInput): nat {
    if !i.block.ConwayBlock? then
      0
    else
      var before := CertAndGov(a.certState, a.gov);
      var lenient := LenientIndices(i.block.invalidField);
      ReleasedByBlock(before, i.block.txs, lenient, a.params.keyDeposit, CertEnv(a))
      + match BlockCerts(before, i.block.txs, lenient, a.params.keyDeposit, CertEnv(a)) {
          case None => 0
          case Some(certs) =>
            WithdrawnBalance(certs.cert, BlockScan.Withdrawn(Kept(i.block.txs, Runs.InvalidOf(i))))
        }
  }

  /** A block brings in its fees and donations, and takes out what leaves the reward accounts. */
  lemma WithinAda(a: Accumulator, i: Runs.BlockInput)
    requires i.block.ConwayBlock? && WithinEpoch(a, i.block, i.ctx, i.resolver).Ok?
    ensures HeldAda(WithinEpoch(a, i.block, i.ctx, i.resolver).value)
         == HeldAda(a) + Runs.BlockFees(i) + Donations(i) - Outflow(a, i)
  {
    hide Scan, Kept, DeclaredFees, ForfeitedCollateral, Donated, BlockScan.Withdrawn, BlockCerts, BlockGovernance;
    hide DecodeIndices, LenientIndices, ReleasedByBlock, WithdrawnBalance, WithdrawAll, Sum;
    var before, lenient := CertAndGov(a.certState, a.gov), LenientIndices(i.block.invalidField);
    ScanSplitsByValidity(i.block.txs, Runs.InvalidOf(i), i.resolver);
    BlockReleases(before, i.block.txs, lenient, a.params.keyDeposit, CertEnv(a));
    var certs := BlockCerts(before, i.block.txs, lenient, a.params.keyDeposit, CertEnv(a)).value;
    WithdrawalsTake(certs.cert, BlockScan.Withdrawn(Kept(i.block.txs, Runs.InvalidOf(i))));
    Runs.WithdrawalsKeepTheRest(certs.cert, BlockScan.Withdrawn(Kept(i.block.txs, Runs.InvalidOf(i))));
  }

  // Whole runs.

  /** The terms of one boundary: proportions, totals that fit, a solvent pot, no clamped pool. */
  ghost predicate FeasibleStep(w: World, a: Accumulator, e: Runs.Event) {
    match e
    case Apply(_) => true
    case Enter(ctx) =>
      if a.epochState.epoch == U64_MAX then
        true
      else
        var target := a.epochState.epoch + 1;
        match Prepare(w, a, target, ctx)
        case None => true
        case Some(p) =>
          && (p.staged.acc.epochState.snapshots.Some? ==>
                FeasibleTerms(FedInputs(p.staged, p.staged.acc.epochState.snapshots.value.go, ctx.activeSlots)))
          && Fits(p.input, target, p.staged.fedFees)
          && Unclamped(w, a, e)
  }

  ghost predicate FeasibleRun(w: World, s: Accumulator, events: seq<Runs.Event>) {
    if events == [] then
      true
    else
      var init := events[..|events| - 1];
      && FeasibleRun(w, s, init)
      && match Runs.Run(w, s, init) {
           case Err(_) => true
           case Ok(a) => FeasibleStep(w, a, events[|events| - 1])
         }
  }

  /** What one event brings in: a block's fees and donations, or deposits that flow back and a record's imbalance. */
  ghost function ComesIn(w: World, a: Accumulator, e: Runs.Event): int {
    match e
    case Apply(i) => Runs.BlockFees(i) + Donations(i)
    case Enter(ctx) =>
      if a.epochState.epoch == U64_MAX then
        0
      else
        match Prepare(w, a, a.epochState.epoch + 1, ctx)
        case None => 0
        case Some(p) => Inflow(p.input, a.epochState.epoch + 1) + Imbalance(a)
  }

  function GoesOut(a: Accumulator, e: Runs.Event): nat {
    match e
    case Apply(i) => Outflow(a, i)
    case Enter(_) => 0
  }

  /** Over a run: what comes in, less what goes out. */
  ghost function NetFlow(w: World, s: Accumulator, events: seq<Runs.Event>): int {
    if events == [] then
      0
    else
      var n := |events| - 1;
      NetFlow(w, s, events[..n])
      + match Runs.Run(w, s, events[..n]) {
          case Err(_) => 0
          case Ok(a) => ComesIn(w, a, events[n]) - GoesOut(a, events[n])
        }
  }

  lemma EnterAda(w: World, a: Accumulator, ctx: Context)
    requires Native(w) && WellFormedSnapshots(a) && (a.pending.Some? ==> a.prevFees == 0)
    requires Runs.Step(w, a, Runs.Enter(ctx)).Ok? && FeasibleStep(w, a, Runs.Enter(ctx))
    ensures HeldAda(Runs.Step(w, a, Runs.Enter(ctx)).value) == HeldAda(a) + ComesIn(w, a, Runs.Enter(ctx))
  {
    hide Cross, Stage, Prepare, FeasibleTerms, HeldAda, Inflow, Imbalance, Fits, Boundary, WellFormed, Native, ReadBack;
    hide Unclamped;
    var target := a.epochState.epoch + 1;
    CrossIsPrepared(w, a, target, ctx);
    Runs.StageEffect(w, a, target);
    NativeIsSound(w);
    StakesAreSums(a.epochState.snapshots.value.go);
    CrossConservesAda(w, a, target, ctx, Cross(w, a, target, ctx).value, Prepare(w, a, target, ctx).value);
  }

  lemma StakesAreSums(snap: StakeSnapshot)
    ensures WellFormed(snap) ==> PoolStakesAreSums(snap)
  {
  }

  /**
   Over every run of the native ledger from well-formed snapshots, what the accumulator
   holds at the end is what the seed held, plus block fees, donations and returned
   deposits, less what left the reward accounts. Nothing else creates or destroys ada.
   */
  lemma {:induction false} RunConservesAda(w: World, s: Accumulator, events: seq<Runs.Event>)
    requires Native(w) && WellFormedSnapshots(s) && (s.pending.Some? ==> s.prevFees == 0)
    requires Runs.Run(w, s, events).Ok? && FeasibleRun(w, s, events)
    ensures HeldAda(Runs.Run(w, s, events).value) == HeldAda(s) + NetFlow(w, s, events)
    ensures var a := Runs.Run(w, s, events).value;
      WellFormedSnapshots(a) && (a.pending.Some? ==> a.prevFees == 0)
  {
    hide Native, Runs.Step, HeldAda, ComesIn, GoesOut, FeasibleStep, WellFormedSnapshots;
    if events != [] {
      var n := |events| - 1;
      RunConservesAda(w, s, events[..n]);
      StepConservesAda(w, Runs.Run(w, s, events[..n]).value, events[n]);
    }
  }

  lemma StepConservesAda(w: World, a: Accumulator, e: Runs.Event)
    requires Native(w) && WellFormedSnapshots(a) && (a.pending.Some? ==> a.prevFees == 0)
    requires Runs.Step(w, a, e).Ok? && FeasibleStep(w, a, e)
    ensures var b := Runs.Step(w, a, e).value;
      && HeldAda(b) == HeldAda(a) + ComesIn(w, a, e) - GoesOut(a, e)
      && WellFormedSnapshots(b) && (b.pending.Some? ==> b.prevFees == 0)
  {
    hide Native, Cross, WithinEpoch, HeldAda, Runs.BlockFees, Donations, Outflow, Inflow, Imbalance;
    hide FeasibleStep, WellFormedSnapshots, Runs.SeedDraw, Prepare;
    match e
    case Enter(ctx) =>
      EnterAda(w, a, ctx);
      EnterKeepsSnapshots(w, a, ctx);
      Runs.CrossEffect(w, a, a.epochState.epoch + 1, ctx);
    case Apply(i) =>
      WithinAda(a, i);
      Runs.WithinEffect(a, i);
      ApplyKeepsSnapshots(a, i);
  }

  lemma EnterKeepsSnapshots(w: World, a: Accumulator, ctx: Context)
    requires WellFormedSnapshots(a) && Runs.Step(w, a, Runs.Enter(ctx)).Ok? && FeasibleStep(w, a, Runs.Enter(ctx))
    ensures WellFormedSnapshots(Runs.Step(w, a, Runs.Enter(ctx)).value)
  {
    hide Cross, AllWellFormed, FeasibleTerms, Fits, Prepare, MarkedStakes, NoPoolClamped, ReadBack, Boundary;
    var target := a.epochState.epoch + 1;
    CrossIsPrepared(w, a, target, ctx);
    CrossKeepsSnapshots(w, a, target, ctx, Cross(w, a, target, ctx).value);
  }

  lemma ApplyKeepsSnapshots(a: Accumulator, i: Runs.BlockInput)
    requires i.block.ConwayBlock? && WithinEpoch(a, i.block, i.ctx, i.resolver).Ok?
    requires WellFormedSnapshots(a)
    ensures WellFormedSnapshots(WithinEpoch(a, i.block, i.ctx, i.resolver).value)
  {
    hide WithinEpoch, AllWellFormed;
    Runs.WithinKeepsParams(a, i);
  }

  // A feasible run that pays a pool exists.

  /** Parameters that expand nothing and tax nothing, with one desired pool. */
  predicate Plain(params: ProtocolParams) {
    && params.monetaryExpansion == 0.0 && params.treasuryGrowth == 0.0 && params.poolInfluence == 0.0
    && params.nOpt == 1
  }

  function OnePoolGo(stake: Coin, p: PoolId, a: Credential): StakeSnapshot {
    StakeSnapshot(map[a := (p, stake)], map[p := stake], map[p := AllToLeader(a)])
  }

  /**
   A seed in epoch 5 whose go snapshot holds one pool with all of the circulation. It
   made every block of the epoch being paid, and its fees are `fee`.
   */
  function PayingSeed(
    h: Hash32, params: ProtocolParams, reserves: Coin, stake: Coin, fee: Coin, p: PoolId, a: Credential): Accumulator
    requires reserves + stake <= U64_MAX
  {
    var none := StakeSnapshot(map[], map[], map[]);
    Accumulator(
      EpochState(5, 0, Some(SnapshotState(none, none, OnePoolGo(stake, p, a))), reserves, 0, map[], fee, 0),
      map[p := stake], 0,
      CertState(DelegationState(map[a := 0], map[], map[a := 0]), PoolState(map[], map[], map[])),
      params, None, None, reserves + stake, Some(SeedRewardAuthority.Native(h, 0, h, 5, fee, h)))
  }

  /** The premises can be met by a run whose boundary pays a pool: its leader's account is credited with the pot. */
  lemma PayingRunExists(
    h: Hash32, params: ProtocolParams, reserves: Coin, stake: Coin, fee: Coin, p: PoolId, a: Credential, ctx: Context)
    requires Plain(params) && 0 < stake && 0 < fee && reserves + stake <= U64_MAX && reserves + fee <= U64_MAX
    requires ctx.boundaryMark.Some? && ctx.activeSlots > 0
    ensures var w, s := NativeWorld(Runs.IdleWorld(h)), PayingSeed(h, params, reserves, stake, fee, p, a);
      && Native(w) && WellFormedSnapshots(s) && s.pending.Some? && s.prevFees == 0
      && Runs.Run(w, s, [Runs.Enter(ctx)]).Ok? && FeasibleRun(w, s, [Runs.Enter(ctx)])
      && Prepare(w, s, 6, ctx).Some? && Prepare(w, s, 6, ctx).value.input.update.credits == map[a := fee]
  {
    hide Cross, FeasibleStep, Native, WellFormed, Prepare;
    var w, s := NativeWorld(Runs.IdleWorld(h)), PayingSeed(h, params, reserves, stake, fee, p, a);
    NativeWorldIsNative(Runs.IdleWorld(h));
    OnePoolGoIsWellFormed(stake, p, a);
    EmptyIsWellFormed();
    PayingSeedCrosses(w, h, params, reserves, stake, fee, p, a, ctx);
    assert [Runs.Enter(ctx)][..0] == [];
    assert Runs.Run(w, s, []) == Ok(s) && FeasibleRun(w, s, []);
  }

  lemma OnePoolGoIsWellFormed(stake: Coin, p: PoolId, a: Credential)
    requires 0 < stake
    ensures WellFormed(OnePoolGo(stake, p, a)) && Sum(OnePoolGo(stake, p, a).poolStakes) == stake
  {
    var go := OnePoolGo(stake, p, a);
    OneDelegator(go, p, a, stake);
    OneEntry(p, stake);
  }

  lemma OneEntry<K>(k: K, x: int)
    ensures Sum(map[k := x]) == x
  {
    var none: map<K, int> := map[];
    assert map[k := x] == none[k := x];
    SumUpdate(none, k, x);
  }

  lemma EmptyIsWellFormed()
    ensures WellFormed(StakeSnapshot(map[], map[], map[]))
  {
  }

  lemma PayingSeedCrosses(
    w: World, h: Hash32, params: ProtocolParams, reserves: Coin, stake: Coin, fee: Coin, p: PoolId, a: Credential,
    ctx: Context)
    requires w == NativeWorld(Runs.IdleWorld(h))
    requires Plain(params) && 0 < stake && 0 < fee && reserves + stake <= U64_MAX && reserves + fee <= U64_MAX
    requires ctx.boundaryMark.Some? && ctx.activeSlots > 0
    ensures var s := PayingSeed(h, params, reserves, stake, fee, p, a);
      && Runs.Step(w, s, Runs.Enter(ctx)).Ok? && FeasibleStep(w, s, Runs.Enter(ctx))
      && Prepare(w, s, 6, ctx).Some? && Prepare(w, s, 6, ctx).value.input.update.credits == map[a := fee]
  {
    hide MarkSpec, RewardsAfterUpdate, RewardsAfterReap, TreasuryBeforeDonations, Reap, ReturnToAccounts, Body;
    hide NativeUpdate, FeasibleTerms, Fits, NoPoolClamped;
    var s := PayingSeed(h, params, reserves, stake, fee, p, a);
    assert Stage(w, s, 6).Ok?;
    var st := Stage(w, s, 6).value;
    var fed := FedInputs(st, s.epochState.snapshots.value.go, ctx.activeSlots);
    PlainUpdate(fed, stake, fee, p, a);
    NativeWorldIsNative(Runs.IdleWorld(h));
    assert w.rewards(fed) == NativeUpdate(fed);
    var bi := BoundaryInputFor(w, st, 6, ctx.boundaryMark.value, ctx.activeSlots);
    assert bi.Some?;
    PayingFits(bi.value.0, 6, fee, a);
    IdleMark(BaseStake(ctx), MarkRewards(w, s, 6, ctx));
  }

  /** Nothing is released and nothing taxed: the pot is the fees, and the pool's leader gets all of it. */
  lemma PlainUpdate(i: RewardInputs, stake: Coin, fee: Coin, p: PoolId, a: Credential)
    requires Plain(i.params) && 0 < stake && 0 < fee && i.fees == fee && i.reserves + fee <= U64_MAX
    requires i.go == OnePoolGo(stake, p, a) && i.blocks == map[p := stake] && i.maxSupply == i.reserves + stake
    ensures NativeUpdate(i) == Some(RewardUpdate(0, 0, fee, map[a := fee], fee)) && FeasibleTerms(i)
  {
    hide DeltaR1, AllocationOf, Stops, Solvent, SolventInputs;
    OnePoolGoIsWellFormed(stake, p, a);
    OneEntry(p, stake);
    PlainPot(i);
    var v := ViewOf(i, PotOf(i));
    PlainAllocation(v, stake, fee, p, a);
    WithinCirculationIsSolvent(i);
  }

  lemma PlainPot(i: RewardInputs)
    requires Plain(i.params) && i.reserves + i.fees <= U64_MAX
    ensures Expansion(i) == 0 && TreasuryShare(i) == 0 && PotOf(i) == i.fees
  {
    hide Eta;
    NoPart(i.reserves, Eta(i.params.decentralization, WrapU64(Sum(i.blocks)), i.slotsPerEpoch));
    hide FloorPart;
    NoPart(SatAdd(Expansion(i), i.fees), 1.0);
  }

  lemma NoPart(a: U64, x: Rational)
    ensures FloorPart(a, Mul(0.0, x)) == 0 && FloorPart(a, 0.0) == 0
  {
    assert Mul(0.0, x) == 0.0;
    assert Mul(a as real, 0.0) == 0.0;
  }

  lemma PlainAllocation(v: PotView, stake: Coin, fee: Coin, p: PoolId, a: Credential)
    requires 0 < stake && 0 < fee && v.go == OnePoolGo(stake, p, a) && v.blocks == map[p := stake]
    requires v.pot == fee && v.totalStake == v.activeStake == v.totalBlocks == stake && v.a0 == 0.0 && v.nOpt == 1
    ensures !Stops(v) && AllocationOf(v) == Allocation(map[a := fee], fee)
  {
    hide PoolPayout, MaxPool, CreditsOf;
    FullShare(fee, stake);
    LeaderTakesAll(v, p, fee, stake, a);
    var pools := {p};
    assert v.go.poolStakes.Keys == pools;
    PlainCredits(v, fee, p, a);
    OneEntry(p, fee);
    OneEntry(p, 0);
    assert Leaders(v, pools) == map[p := fee] && MemberTotals(v, pools) == map[p := 0];
  }

  /** One pool, whose leader alone is paid. */
  lemma PlainCredits(v: PotView, fee: Coin, p: PoolId, a: Credential)
    requires v.totalStake > 0 && p in v.go.poolStakes && PoolPayout(v, p) == Paid(fee, map[])
    requires p in v.go.poolParams && v.go.poolParams[p].rewardAccount == a
    ensures CreditsOf(v, {p}) == map[a := fee]
  {
    hide PoolPayout, Sum;
    assert CreditTo(v, p, a) == fee;
    assert CreditsTo(v, {p}, a) == map[p := fee as int];
    OneEntry<PoolId>(p, fee);
    assert a in Recipients(v, p);
    assert AllRecipients(v, {p}) == {a};
    assert CreditOf(v, {p}, a) == fee;
  }

  lemma PayingFits(i: BoundaryInput, target: U64, fees: Coin, a: Credential)
    requires i.certState == CertState(DelegationState(map[a := 0], map[], map[a := 0]), PoolState(map[], map[], map[]))
    requires i.givebacks == [] && i.epochState.treasury == i.epochState.donationPot == 0
    requires i.epochState.reserves + fees <= U64_MAX
    ensures Fits(i, target, fees)
  {
    assert Amounts(Refunds(i.certState, target, i.params.poolDeposit)) == map[];
    OneEntry(a, 0);
    assert i.certState.delegation.rewards == map[a := 0];
  }

  lemma IdleMark(base: map<Credential, Coin>, rewards: map<Credential, Coin>)
    ensures NoPoolClamped(MarkDelegations(base, rewards, map[]))
  {
    forall p: PoolId
      ensures Sum(Group(MarkDelegations(base, rewards, map[]), p)) == 0
    {
      assert Group(MarkDelegations(base, rewards, map[]), p) == map[];
    }
  }
}
