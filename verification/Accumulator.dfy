/**
 The epoch accumulator as a state machine (crates/ade_ledger/src/epoch_accumulator.rs):
 each selected block crosses the boundaries up to its epoch and then applies its own
 effects. The reward calculation, ratification and the hash function are parameters.
 */
module Accumulator {
  import opened LedgerTypes
  import opened Sums
  import opened Snapshots
  import opened Certificates
  import opened RewardUpdates
  import opened EpochBoundary
  import opened CanonicalMaps
  import opened SeedAuthority
  import opened AccumulatorCodecs
  import opened BlockScan
  import opened BlockEffects
  import opened Leadership
  import EpochRewards
  import Gov = GovernanceCerts

  datatype Accumulator = Accumulator(
    epochState: EpochState,
    prevBlocks: map<PoolId, U64>,
    prevFees: Coin,
    certState: CertState,
    params: ProtocolParams,
    gov: Option<Gov.GovState>,
    drepActivity: Option<U64>,
    maxSupply: Coin,
    pending: Option<SeedRewardAuthority>)

  /** What governance decides at a boundary: the proposals that stay, the deposits returned, new parameters. */
  datatype GovPlan = GovPlan(
    proposals: seq<Gov.Proposal>, givebacks: seq<DepositReturn>, enacted: Option<ProtocolParams>)

  /** The calculations the transition calls. Nothing is assumed of them here. */
  datatype World = World(
    hash: Hash,
    rewards: RewardInputs -> Option<RewardUpdate>,
    governance: (Gov.GovState, CertState, U64) -> Option<GovPlan>,
    ratifies: (BoundaryOutput, Option<Gov.GovState>) -> bool)

  datatype Context = Context(
    era: nat,
    blockEpoch: U64,
    blockSlot: U64,
    issuer: PoolId,
    boundaryMark: Option<map<Credential, Coin>>,
    activeSlots: U64)

  /** A block's transaction count is a 64-bit number. */
  type Transactions = s: seq<TxBody> | |s| <= U64_MAX

  /** A decoded block, or why it was not decoded. */
  datatype Block =
    | Undecodable
    | OtherEra(tag: nat)
    | ConwayBlock(txs: Transactions, invalidField: Option<seq<Byte>>)

  datatype TransitionError =
    | MalformedBlock
    | EraNotSupported(tag: nat)
    | EraMismatch
    | BoundaryGap(priorEpoch: U64, blockEpoch: U64)
    | MissingBoundaryStake(epoch: U64)
    | CertApply
    | ArithmeticOverflow
    | TxEffects(scan: ScanError)
    | GovernanceField
    | RupdWrongBoundary(rupdTarget: U64, boundary: U64)
    | RupdCommitmentMismatch
    | RupdReservesUnderflow
    | RupdFeesUnderflow
    | ZeroRewardPot(boundary: U64)
    | BoundaryTerminal
    | LeadershipEpochOverflow(boundary: U64)
    | EffectInvariant

  const CONWAY: nat := 7

  // Seeding.

  datatype Bootstrap = Bootstrap(
    era: nat,
    epochState: EpochState,
    certState: Option<CertState>,
    gov: Option<Option<Gov.GovState>>,
    params: ProtocolParams,
    drepActivity: Option<U64>,
    maxSupply: Coin)

  datatype SeedError = SeedEraNotSupported | SeedEpochMismatch | NotAuthoritative

  /** The imported counts are the previous epoch's; the imported fee pot stays the current one. */
  function SeedFromBootstrap(
    b: Bootstrap, expectedEpoch: U64, pending: Option<SeedRewardAuthority>, currentBlocks: map<PoolId, U64>):
    Result<Accumulator, SeedError>
  {
    if b.era < CONWAY then Err(SeedEraNotSupported)
    else if b.epochState.epoch != expectedEpoch then Err(SeedEpochMismatch)
    else if b.certState.None? || b.gov.None? then Err(NotAuthoritative)
    else Ok(Accumulator(
      b.epochState.(blockProduction := currentBlocks), b.epochState.blockProduction, 0, b.certState.value,
      b.params, b.gov.value, b.drepActivity, b.maxSupply, pending))
  }

  // Crossing one boundary.

  /** What the boundary's reward calculation is fed, after the seed authority has been consumed. */
  datatype Staged = Staged(
    acc: Accumulator,
    fedBlocks: map<PoolId, U64>,
    fedFees: Coin,
    drawnReserves: Coin,
    addedTreasury: Coin,
    seeded: bool)

  /** The reward of the seed boundary has one owner; a pending authority fits one boundary only. */
  function Stage(w: World, a: Accumulator, target: U64): Result<Staged, TransitionError> {
    match a.pending
    case None => Ok(Staged(a, a.prevBlocks, a.prevFees, 0, 0, false))
    case Some(authority) =>
      var consumed := a.(pending := None);
      if authority.targetEpoch + 1 != target then
        Err(RupdWrongBoundary(authority.targetEpoch, target))
      else if Commitment(w.hash, authority) != authority.commitment then
        Err(RupdCommitmentMismatch)
      else if authority.Native? then
        (match CheckedSub(a.epochState.epochFees, authority.feeSs)
         case None => Err(RupdFeesUnderflow)
         case Some(fees) =>
           Ok(Staged(consumed.(epochState := a.epochState.(epochFees := fees)), a.prevBlocks, authority.feeSs,
                     0, 0, true)))
      else
        match AddRewards(a.certState.delegation.rewards, ToMap(authority.rewardDelta))
        case None => Err(ArithmeticOverflow)
        case Some(rewards) =>
          match CheckedSub(a.epochState.epochFees, authority.deltaFees)
          case None => Err(RupdFeesUnderflow)
          case Some(fees) =>
            Ok(Staged(consumed.(epochState := a.epochState.(epochFees := fees),
                                certState := WithRewards(a.certState, rewards)),
                      map[], 0, authority.deltaReserves, authority.deltaTreasury, false))
  }

  function PlanFor(w: World, a: Accumulator, target: U64): Option<GovPlan> {
    match a.gov
    case None => Some(GovPlan([], [], None))
    case Some(g) => w.governance(g, a.certState, target)
  }

  function GovAfter(gov: Option<Gov.GovState>, plan: GovPlan): Option<Gov.GovState> {
    if gov.None? then None else Some(gov.value.(proposals := plan.proposals))
  }

  /** The epoch state with the fed counts and fees in place of the accumulating ones. */
  function FedState(st: Staged): EpochState {
    st.acc.epochState.(blockProduction := st.fedBlocks, epochFees := st.fedFees)
  }

  function FedInputs(st: Staged, go: StakeSnapshot, activeSlots: U64): RewardInputs {
    RewardInputs(st.acc.epochState.reserves, st.fedFees, st.fedBlocks, go, st.acc.maxSupply, st.acc.params, activeSlots)
  }

  predicate ProducedBlocks(m: map<PoolId, U64>) {
    exists p | p in m :: m[p] > 0
  }

  /** The input of the boundary, once governance and the reward calculation have answered. */
  function BoundaryInputFor(
    w: World, st: Staged, target: U64, base: map<Credential, Coin>, activeSlots: U64):
    Option<(BoundaryInput, GovPlan)>
  {
    if st.acc.epochState.snapshots.None? then
      None
    else
      match PlanFor(w, st.acc, target)
      case None => None
      case Some(plan) =>
        match w.rewards(FedInputs(st, st.acc.epochState.snapshots.value.go, activeSlots))
        case None => None
        case Some(update) =>
          var a := st.acc;
          Some((BoundaryInput(FedState(st), a.certState, base, update, plan.givebacks, a.params, plan.enacted), plan))
  }

  /**
   Read back the boundary's epoch, certificate and governance state, rotate the buffers,
   and apply an imported record's pots. The boundary's parameters are not read back.
   */
  function ReadBack(
    st: Staged, out: BoundaryOutput, plan: GovPlan, update: RewardUpdate, target: U64):
    Result<Accumulator, TransitionError>
  {
    if st.seeded && ProducedBlocks(st.acc.prevBlocks) && update.pot == 0 then
      Err(ZeroRewardPot(target))
    else
      match CheckedSub(out.epochState.reserves, st.drawnReserves)
      case None => Err(RupdReservesUnderflow)
      case Some(reserves) =>
        match CheckedAdd(out.epochState.treasury, st.addedTreasury)
        case None => Err(ArithmeticOverflow)
        case Some(treasury) =>
          if target == U64_MAX then
            Err(LeadershipEpochOverflow(target))
          else
            Ok(st.acc.(
              certState := out.certState,
              gov := GovAfter(st.acc.gov, plan),
              epochState := out.epochState.(reserves := reserves, treasury := treasury),
              prevBlocks := st.acc.epochState.blockProduction,
              prevFees := st.acc.epochState.epochFees))
  }

  ghost function Settle(
    w: World, st: Staged, target: U64, base: map<Credential, Coin>, activeSlots: U64):
    Result<Accumulator, TransitionError>
  {
    match BoundaryInputFor(w, st, target, base, activeSlots)
    case None => Err(BoundaryTerminal)
    case Some((input, plan)) =>
      match Boundary(input, target)
      case Err(_) => Err(BoundaryTerminal)
      case Ok(out) =>
        if !w.ratifies(out, GovAfter(st.acc.gov, plan)) then
          Err(BoundaryTerminal)
        else
          ReadBack(st, out, plan, input.update, target)
  }

  /** The pre-boundary registrations and delegations, with the stakes of the mark just built. */
  ghost function FreezeInputsFor(before: CertState, after: Accumulator, target: U64): FreezeInputs
    requires after.epochState.snapshots.Some? && target < U64_MAX
  {
    var mark := after.epochState.snapshots.value.mark;
    FreezeInputs(target, target + 1, before.delegation.delegations.Values, Vrfs(before), mark.poolStakes,
                 TotalActiveStake(mark))
  }

  function Vrfs(s: CertState): map<PoolId, Hash32> {
    map p | p in s.pool.pools :: s.pool.pools[p].vrf
  }

  datatype Crossed = Crossed(acc: Accumulator, frozen: FreezeInputs)

  /** `cross_epoch_boundary_transition`. */
  ghost function Cross(w: World, a: Accumulator, target: U64, ctx: Context): (r: Result<Crossed, TransitionError>)
  {
    if ctx.boundaryMark.None? || ctx.activeSlots == 0 then
      Err(MissingBoundaryStake(target))
    else
      var st :- Stage(w, a, target);
      var after :- Settle(w, st, target, ctx.boundaryMark.value, ctx.activeSlots);
      Ok(Crossed(after, FreezeInputsFor(a.certState, after, target)))
  }

  method CrossEpochBoundary(w: World, a: Accumulator, target: U64, ctx: Context)
    returns (r: Result<Crossed, TransitionError>)
    ensures r == Cross(w, a, target, ctx)
  {
    hide Boundary, Commitment;
    if ctx.boundaryMark.None? || ctx.activeSlots == 0 {
      return Err(MissingBoundaryStake(target));
    }
    var staged := Stage(w, a, target);
    if staged.Err? {
      return Err(staged.error);
    }
    var st := staged.value;
    var input := BoundaryInputFor(w, st, target, ctx.boundaryMark.value, ctx.activeSlots);
    if input.None? {
      return Err(BoundaryTerminal);
    }
    var plan := input.value.1;
    var out := ApplyBoundary(input.value.0, target);
    if out.Err? || !w.ratifies(out.value, GovAfter(st.acc.gov, plan)) {
      return Err(BoundaryTerminal);
    }
    var after := ReadBack(st, out.value, plan, input.value.0.update, target);
    if after.Err? {
      return Err(after.error);
    }
    BoundaryHasSnapshots(input.value.0, target);
    var mark := after.value.epochState.snapshots.value.mark;
    var total := EpochRewards.SaturatingTotal(Amounts(mark.delegations));
    r := Ok(Crossed(after.value,
                    FreezeInputs(target, target + 1, a.certState.delegation.delegations.Values, Vrfs(a.certState),
                                 mark.poolStakes, total)));
  }

  /** What a crossing hands to the boundary: the staged accumulator, the boundary's input, the governance plan. */
  datatype Prepared = Prepared(staged: Staged, input: BoundaryInput, plan: GovPlan)

  function Prepare(w: World, a: Accumulator, target: U64, ctx: Context): Option<Prepared> {
    if ctx.boundaryMark.None? then
      None
    else
      match Stage(w, a, target)
      case Err(_) => None
      case Ok(st) =>
        match BoundaryInputFor(w, st, target, ctx.boundaryMark.value, ctx.activeSlots)
        case None => None
        case Some((input, plan)) => Some(Prepared(st, input, plan))
  }

  lemma CrossIsPrepared(w: World, a: Accumulator, target: U64, ctx: Context)
    requires Cross(w, a, target, ctx).Ok?
    ensures Prepare(w, a, target, ctx).Some? && ctx.boundaryMark.Some?
    ensures var p := Prepare(w, a, target, ctx).value;
      && Stage(w, a, target) == Ok(p.staged) && p.staged.acc.epochState.snapshots.Some?
      && BoundaryInputFor(w, p.staged, target, ctx.boundaryMark.value, ctx.activeSlots) == Some((p.input, p.plan))
      && Boundary(p.input, target).Ok?
      && ReadBack(p.staged, Boundary(p.input, target).value, p.plan, p.input.update, target)
         == Ok(Cross(w, a, target, ctx).value.acc)
  {
    hide Boundary, Stage;
  }

  lemma BoundaryHasSnapshots(i: BoundaryInput, target: U64)
    ensures Boundary(i, target).Ok? ==> Boundary(i, target).value.epochState.snapshots.Some?
  {
  }

  // A block's own effects.

  function CertEnv(a: Accumulator): Option<Gov.GovCertEnv> {
    if a.drepActivity.None? then None else Some(Gov.GovCertEnv(a.epochState.epoch, a.drepActivity.value))
  }

  function Bump(m: map<PoolId, U64>, p: PoolId): Option<map<PoolId, U64>> {
    match CheckedAdd(GetOr(m, p), 1)
    case None => None
    case Some(n) => Some(m[p := n])
  }

  function WithdrawAll(s: CertState, creds: seq<Credential>): CertState {
    if creds == [] then s else Withdraw(WithdrawAll(s, creds[..|creds| - 1]), creds[|creds| - 1])
  }

  /** `apply_within_epoch`: the certificate walk reads the invalid set leniently, the others strictly. */
  function WithinEpoch(a: Accumulator, b: Block, ctx: Context, resolver: Option<Resolver>):
    Result<Accumulator, TransitionError>
    requires b.ConwayBlock?
  {
    match DecodeIndices(b.invalidField, |b.txs|)
    case None => Err(MalformedBlock)
    case Some(indices) =>
      match Scan(b.txs, Elements(indices), resolver)
      case Err(e) => Err(TxEffects(e))
      case Ok(totals) =>
        match BlockCerts(CertAndGov(a.certState, a.gov), b.txs, LenientIndices(b.invalidField),
                         a.params.keyDeposit, CertEnv(a))
        case None => Err(CertApply)
        case Some(certs) =>
          match (if certs.gov.None? then Some(None)
                 else AsTracked(BlockGovernance(certs.gov.value, b.txs, Elements(indices), ctx.blockEpoch)))
          case None => Err(GovernanceField)
          case Some(gov) => Account(a, certs.cert, gov, totals, ctx)
  }

  function AsTracked(g: Option<Gov.GovState>): Option<Option<Gov.GovState>> {
    if g.None? then None else Some(g)
  }

  /** The issuer's count, the fees, the donations and the withdrawals. */
  function Account(
    a: Accumulator, certState: CertState, gov: Option<Gov.GovState>, t: Totals, ctx: Context):
    Result<Accumulator, TransitionError>
  {
    match Bump(a.epochState.blockProduction, ctx.issuer)
    case None => Err(ArithmeticOverflow)
    case Some(blocks) =>
      match CheckedAdd(a.epochState.epochFees, t.fees)
      case None => Err(ArithmeticOverflow)
      case Some(fees) =>
        match CheckedAdd(a.epochState.donationPot, t.donations)
        case None => Err(ArithmeticOverflow)
        case Some(donations) =>
          Ok(a.(
            certState := WithdrawAll(certState, t.withdrawals),
            gov := gov,
            epochState := a.epochState.(
              blockProduction := blocks, epochFees := fees, donationPot := donations, slot := ctx.blockSlot)))
  }

  /** The block body as the source runs it: the decoders and the walks, one after another. */
  method ApplyWithinEpoch(a: Accumulator, b: Block, ctx: Context, resolver: Option<Resolver>)
    returns (r: Result<Accumulator, TransitionError>)
    requires b.ConwayBlock?
    ensures r == WithinEpoch(a, b, ctx, resolver)
  {
    hide DecodeIndices, LenientIndices, Scan, BlockCerts, BlockGovernance, Account, Elements;
    var indices := DecodeInvalidIndices(b.invalidField, |b.txs|);
    if indices.None? {
      return Err(MalformedBlock);
    }
    var invalid := Elements(indices.value);
    var totals := ScanBlock(b.txs, invalid, resolver);
    if totals.Err? {
      return Err(TxEffects(totals.error));
    }
    var certs := CollectBlockCerts(CertAndGov(a.certState, a.gov), b.txs, LenientIndices(b.invalidField),
                                   a.params.keyDeposit, CertEnv(a));
    if certs.None? {
      return Err(CertApply);
    }
    var gov := None;
    if certs.value.gov.Some? {
      gov := CollectGovernance(certs.value.gov.value, b.txs, invalid, ctx.blockEpoch);
      if gov.None? {
        return Err(GovernanceField);
      }
    }
    r := Account(a, certs.value.cert, gov, totals.value, ctx);
  }

  // The whole block.

  /** The boundaries from the accumulator's epoch up to `epoch`, one after another. */
  ghost function CrossAll(w: World, a: Accumulator, epoch: U64, ctx: Context):
    (r: Result<(Accumulator, seq<FreezeInputs>), TransitionError>)
    decreases epoch
  {
    if epoch <= a.epochState.epoch then
      Ok((a, []))
    else
      var before :- CrossAll(w, a, epoch - 1, ctx);
      var crossed :- Cross(w, before.0, epoch, ctx);
      Ok((crossed.acc, before.1 + [crossed.frozen]))
  }

  datatype Effect = FreezeLeadership(sourceEpoch: U64, targetEpoch: U64, distr: Distribution)

  function EffectOf(i: FreezeInputs, source: Lineage): Effect {
    FreezeLeadership(i.sourceEpoch, i.targetEpoch, Freeze(i, source))
  }

  function EffectsOf(frozen: seq<FreezeInputs>, source: Option<Lineage>): seq<Effect> {
    if source.None? then [] else seq(|frozen|, i requires 0 <= i < |frozen| => EffectOf(frozen[i], source.value))
  }

  ghost function Refusal(a: Accumulator, b: Block, ctx: Context): Option<TransitionError> {
    match b
    case Undecodable => Some(MalformedBlock)
    case OtherEra(tag) => Some(EraNotSupported(tag))
    case ConwayBlock(_, _) =>
      if ctx.era != CONWAY then Some(EraMismatch)
      else if ctx.blockEpoch < a.epochState.epoch then Some(BoundaryGap(a.epochState.epoch, ctx.blockEpoch))
      else None
  }

  /** The accumulator a block leads to; it does not depend on whether effects are produced. */
  ghost function ApplyBlock(w: World, a: Accumulator, b: Block, ctx: Context, resolver: Option<Resolver>):
    Result<(Accumulator, seq<FreezeInputs>), TransitionError>
  {
    match Refusal(a, b, ctx)
    case Some(e) => Err(e)
    case None =>
      var crossed :- CrossAll(w, a, ctx.blockEpoch, ctx);
      var after :- WithinEpoch(crossed.0, b, ctx, resolver);
      Ok((after, crossed.1))
  }

  /** Each boundary moves the epoch on by one and freezes the leadership of the epoch after. */
  ghost predicate OnePerBoundary(from: U64, frozen: seq<FreezeInputs>) {
    forall i :: 0 <= i < |frozen| ==> frozen[i].sourceEpoch == from + 1 + i && frozen[i].targetEpoch == from + 2 + i
  }

  lemma CrossMovesOn(w: World, a: Accumulator, target: U64, ctx: Context)
    requires Cross(w, a, target, ctx).Ok?
    ensures var c := Cross(w, a, target, ctx).value;
      && target < U64_MAX && c.acc.epochState.epoch == target
      && c.frozen.sourceEpoch == target && c.frozen.targetEpoch == target + 1
  {
    hide MarkSpec, RewardsAfterUpdate, RewardsAfterReap, TreasuryBeforeDonations, Reap, Commitment;
  }

  lemma {:induction false} CrossAllIsOnePerBoundary(w: World, a: Accumulator, epoch: U64, ctx: Context)
    requires a.epochState.epoch <= epoch && CrossAll(w, a, epoch, ctx).Ok?
    ensures var r := CrossAll(w, a, epoch, ctx).value;
      && r.0.epochState.epoch == epoch && |r.1| == epoch - a.epochState.epoch
      && OnePerBoundary(a.epochState.epoch, r.1)
    decreases epoch
  {
    hide Cross;
    if a.epochState.epoch < epoch {
      CrossAllIsOnePerBoundary(w, a, epoch - 1, ctx);
      CrossMovesOn(w, CrossAll(w, a, epoch - 1, ctx).value.0, epoch, ctx);
    }
  }

  /** What `validate_boundary_effects` demands of a batch. */
  ghost predicate BatchValid(effects: seq<Effect>) {
    && (forall i :: 0 <= i < |effects| ==> effects[i].distr.targetEpoch == effects[i].targetEpoch)
    && (forall i, j :: 0 <= i < |effects| && j == i + 1 && j < |effects| ==>
          effects[i].sourceEpoch < effects[j].sourceEpoch && effects[i].targetEpoch < effects[j].targetEpoch)
  }

  method ValidateEffects(effects: seq<Effect>) returns (ok: bool)
    ensures ok <==> BatchValid(effects)
  {
    var prevSource: Option<U64>, prevTarget: Option<U64> := None, None;
    for n := 0 to |effects|
      invariant BatchValid(effects[..n])
      invariant prevSource == (if n == 0 then None else Some(effects[n - 1].sourceEpoch))
      invariant prevTarget == (if n == 0 then None else Some(effects[n - 1].targetEpoch))
    {
      var e := effects[n];
      if e.distr.targetEpoch != e.targetEpoch
         || (prevSource.Some? && e.sourceEpoch <= prevSource.value)
         || (prevTarget.Some? && e.targetEpoch <= prevTarget.value) {
        return false;
      }
      prevSource, prevTarget := Some(e.sourceEpoch), Some(e.targetEpoch);
    }
    assert effects[..|effects|] == effects;
    return true;
  }

  /** The batch check cannot fail on what the loop collects. */
  lemma CollectedEffectsAreValid(from: U64, frozen: seq<FreezeInputs>, source: Option<Lineage>)
    requires OnePerBoundary(from, frozen)
    ensures BatchValid(EffectsOf(frozen, source))
  {
  }

  /**
   `apply_selected_block_core`, with and without effects. The two paths succeed on the
   same blocks with the same accumulator and fail with the same error; with a source
   lineage there is exactly one effect a crossed boundary, in ascending order, and the
   batch check never refuses.
   */
  method ApplySelectedBlock(
    w: World, prior: Accumulator, b: Block, ctx: Context, source: Option<Lineage>, resolver: Option<Resolver>)
    returns (r: Result<(Accumulator, seq<Effect>), TransitionError>)
    ensures var spec := ApplyBlock(w, prior, b, ctx, resolver);
      match spec
      case Err(e) => r == Err(e)
      case Ok((acc, frozen)) =>
        && r == Ok((acc, EffectsOf(frozen, source)))
        && OnePerBoundary(prior.epochState.epoch, frozen) && |frozen| == ctx.blockEpoch - prior.epochState.epoch
    ensures r != Err(EffectInvariant)
  {
    hide Cross, WithinEpoch, OnePerBoundary, BatchValid, EffectsOf;
    if b.Undecodable? {
      return Err(MalformedBlock);
    }
    if b.OtherEra? {
      return Err(EraNotSupported(b.tag));
    }
    if ctx.era != CONWAY {
      return Err(EraMismatch);
    }
    if ctx.blockEpoch < prior.epochState.epoch {
      return Err(BoundaryGap(prior.epochState.epoch, ctx.blockEpoch));
    }
    var acc, effects := prior, [];
    ghost var frozen: seq<FreezeInputs> := [];
    NoEffectsYet(source);
    var e := prior.epochState.epoch;
    while e < ctx.blockEpoch
      invariant prior.epochState.epoch <= e <= ctx.blockEpoch
      invariant CrossAll(w, prior, e, ctx) == Ok((acc, frozen))
      invariant effects == EffectsOf(frozen, source)
    {
      var crossed := CrossEpochBoundary(w, acc, e + 1, ctx);
      if crossed.Err? {
        CrossAllRefusalIsFinal(w, prior, e + 1, ctx.blockEpoch, ctx);
        CrossErrors(w, acc, e + 1, ctx);
        return Err(crossed.error);
      }
      EffectsAppend(frozen, crossed.value.frozen, source);
      if source.Some? {
        var distr := FreezeBoundary(crossed.value.frozen, source.value);
        var f := crossed.value.frozen;
        effects := effects + [FreezeLeadership(f.sourceEpoch, f.targetEpoch, distr)];
      }
      acc := crossed.value.acc;
      frozen := frozen + [crossed.value.frozen];
      e := e + 1;
    }
    CrossAllIsOnePerBoundary(w, prior, ctx.blockEpoch, ctx);
    var after := ApplyWithinEpoch(acc, b, ctx, resolver);
    if after.Err? {
      WithinErrors(acc, b, ctx, resolver);
      return Err(after.error);
    }
    CollectedEffectsAreValid(prior.epochState.epoch, frozen, source);
    var ok := ValidateEffects(effects);
    if !ok {
      return Err(EffectInvariant);
    }
    r := Ok((after.value, effects));
  }

  lemma NoEffectsYet(source: Option<Lineage>)
    ensures EffectsOf([], source) == []
  {
  }

  lemma EffectsAppend(frozen: seq<FreezeInputs>, f: FreezeInputs, source: Option<Lineage>)
    ensures EffectsOf(frozen + [f], source)
         == if source.Some? then EffectsOf(frozen, source) + [EffectOf(f, source.value)] else EffectsOf(frozen, source)
  {
  }

  lemma {:induction false} CrossAllRefusalIsFinal(w: World, a: Accumulator, e: U64, epoch: U64, ctx: Context)
    requires a.epochState.epoch <= e <= epoch && CrossAll(w, a, e, ctx).Err?
    ensures CrossAll(w, a, epoch, ctx) == CrossAll(w, a, e, ctx)
    decreases epoch
  {
    hide Cross;
    if e < epoch {
      CrossAllRefusalIsFinal(w, a, e, epoch - 1, ctx);
    }
  }

  lemma CrossErrors(w: World, a: Accumulator, target: U64, ctx: Context)
    requires Cross(w, a, target, ctx).Err?
    ensures Cross(w, a, target, ctx).error != EffectInvariant
  {
    hide Boundary, Commitment;
  }

  lemma WithinErrors(a: Accumulator, b: Block, ctx: Context, resolver: Option<Resolver>)
    requires b.ConwayBlock? && WithinEpoch(a, b, ctx, resolver).Err?
    ensures WithinEpoch(a, b, ctx, resolver).error != EffectInvariant
  {
    hide Scan, BlockCerts, BlockGovernance, DecodeIndices, LenientIndices;
  }
}
