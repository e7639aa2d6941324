/**
 Whole runs of the epoch accumulator: what the buffers hold, what the boundaries draw,
 when the seed authority is consumed, and what every reachable state keeps.
 */
module AccumulatorRuns {
  import opened LedgerTypes
  import opened Snapshots
  import opened Certificates
  import opened RewardUpdates
  import opened EpochBoundary
  import opened SeedAuthority
  import opened AccumulatorCodecs
  import opened BlockScan
  import opened BlockEffects
  import opened Accumulator
  import Gov = GovernanceCerts

  datatype BlockInput = BlockInput(block: Block, ctx: Context, resolver: Option<Resolver>)

  /** The positions a block marks as discarded, where its field decodes. */
  function InvalidOf(i: BlockInput): set<nat>
    requires i.block.ConwayBlock?
  {
    match DecodeIndices(i.block.invalidField, |i.block.txs|)
    case None => {}
    case Some(indices) => Elements(indices)
  }

  ghost function RunBlocks(w: World, a: Accumulator, inputs: seq<BlockInput>): Result<Accumulator, TransitionError> {
    if inputs == [] then
      Ok(a)
    else
      var last := inputs[|inputs| - 1];
      var before :- RunBlocks(w, a, inputs[..|inputs| - 1]);
      var after :- ApplyBlock(w, before, last.block, last.ctx, last.resolver);
      Ok(after.0)
  }

  /** A finer view: the boundaries one by one, and each block's own effects. */
  datatype Event = Enter(ctx: Context) | Apply(input: BlockInput)

  ghost function Step(w: World, a: Accumulator, e: Event): Result<Accumulator, TransitionError> {
    match e
    case Enter(ctx) =>
      if a.epochState.epoch == U64_MAX then
        Err(LeadershipEpochOverflow(U64_MAX))
      else
        var c :- Cross(w, a, a.epochState.epoch + 1, ctx);
        Ok(c.acc)
    case Apply(i) =>
      if !i.block.ConwayBlock? || i.ctx.blockEpoch != a.epochState.epoch then
        Err(MalformedBlock)
      else
        WithinEpoch(a, i.block, i.ctx, i.resolver)
  }

  ghost function Run(w: World, a: Accumulator, events: seq<Event>): Result<Accumulator, TransitionError> {
    if events == [] then
      Ok(a)
    else
      var before :- Run(w, a, events[..|events| - 1]);
      Step(w, before, events[|events| - 1])
  }

  function Applied(events: seq<Event>): seq<BlockInput> {
    if events == [] then
      []
    else
      Applied(events[..|events| - 1])
      + match events[|events| - 1] { case Apply(i) => [i] case Enter(_) => [] }
  }

  // Independent tallies.

  function Count(m: map<PoolId, nat>, p: PoolId): nat {
    if p in m then m[p] else 0
  }

  /** The blocks of epoch `e`, by issuer, on top of `start`. */
  function Tally(start: map<PoolId, nat>, inputs: seq<BlockInput>, e: U64): map<PoolId, nat> {
    if inputs == [] then
      start
    else
      var last, before := inputs[|inputs| - 1].ctx, Tally(start, inputs[..|inputs| - 1], e);
      if last.blockEpoch == e then before[last.issuer := Count(before, last.issuer) + 1] else before
  }

  /** The fees of a block: what its kept transactions declare and its discarded ones forfeit. */
  function BlockFees(i: BlockInput): nat {
    if !i.block.ConwayBlock? then
      0
    else
      match DecodeIndices(i.block.invalidField, |i.block.txs|)
      case None => 0
      case Some(indices) =>
        DeclaredFees(Kept(i.block.txs, Elements(indices)))
        + ForfeitedCollateral(i.block.txs, Elements(indices), i.resolver)
  }

  function FeesIn(inputs: seq<BlockInput>, e: U64): nat {
    if inputs == [] then
      0
    else
      var last := inputs[|inputs| - 1];
      FeesIn(inputs[..|inputs| - 1], e) + if last.ctx.blockEpoch == e then BlockFees(last) else 0
  }

  function AllFees(inputs: seq<BlockInput>): nat {
    if inputs == [] then 0 else AllFees(inputs[..|inputs| - 1]) + BlockFees(inputs[|inputs| - 1])
  }

  /** How often `p` issued a block of epoch `e`. */
  function Issued(inputs: seq<BlockInput>, e: U64, p: PoolId): nat {
    if inputs == [] then
      0
    else
      var last := inputs[|inputs| - 1].ctx;
      Issued(inputs[..|inputs| - 1], e, p) + if last.blockEpoch == e && last.issuer == p then 1 else 0
  }

  /** A tally counts each pool's own blocks. */
  lemma {:induction false} TallyCountsIssued(start: map<PoolId, nat>, inputs: seq<BlockInput>, e: U64, p: PoolId)
    ensures Count(Tally(start, inputs, e), p) == Count(start, p) + Issued(inputs, e, p)
  {
    if inputs != [] {
      TallyCountsIssued(start, inputs[..|inputs| - 1], e, p);
    }
  }

  predicate NoneAfter(inputs: seq<BlockInput>, e: U64) {
    forall i :: 0 <= i < |inputs| ==> inputs[i].ctx.blockEpoch <= e
  }

  /** An epoch nobody has reached has no blocks and no fees. */
  lemma {:induction false} NothingLater(start: map<PoolId, nat>, inputs: seq<BlockInput>, e: U64, later: U64)
    requires NoneAfter(inputs, e) && e < later
    ensures Tally(start, inputs, later) == start && FeesIn(inputs, later) == 0
  {
    if inputs != [] {
      NothingLater(start, inputs[..|inputs| - 1], e, later);
    }
  }

  // One event at a time.

  /** What a seed authority takes out of the fee pot at its boundary. */
  function SeedDraw(a: Accumulator): Coin {
    match a.pending
    case None => 0
    case Some(Native(_, _, _, _, fee, _)) => fee
    case Some(Imported(_, _, _, _, _, _, fees, _, _)) => fees
  }

  lemma StageEffect(w: World, a: Accumulator, target: U64)
    requires Stage(w, a, target).Ok?
    ensures var st := Stage(w, a, target).value;
      && SeedDraw(a) <= a.epochState.epochFees
      && st.acc == a.(pending := None,
                      epochState := a.epochState.(epochFees := a.epochState.epochFees - SeedDraw(a)),
                      certState := WithRewards(a.certState, st.acc.certState.delegation.rewards))
      && a.certState.delegation.rewards.Keys <= st.acc.certState.delegation.rewards.Keys
      && (a.pending.Some? ==> a.pending.value.targetEpoch + 1 == target)
  {
    hide Commitment;
  }

  lemma CrossEffect(w: World, a: Accumulator, target: U64, ctx: Context)
    requires Cross(w, a, target, ctx).Ok?
    ensures var b := Cross(w, a, target, ctx).value.acc;
      && b.epochState.epoch == target && b.pending == None
      && b.epochState.blockProduction == map[] && b.epochState.epochFees == 0
      && b.prevBlocks == a.epochState.blockProduction
      && SeedDraw(a) <= a.epochState.epochFees && b.prevFees == a.epochState.epochFees - SeedDraw(a)
      && (a.pending.Some? ==> a.pending.value.targetEpoch + 1 == target)
  {
    hide Stage, MarkSpec, RewardsAfterUpdate, RewardsAfterReap, TreasuryBeforeDonations, Reap, ReturnToAccounts;
    StageEffect(w, a, target);
  }

  /** Withdrawals change nothing but reward balances. */
  lemma {:induction false} WithdrawalsKeepTheRest(s: CertState, creds: seq<Credential>)
    ensures WithdrawAll(s, creds) == WithRewards(s, WithdrawAll(s, creds).delegation.rewards)
  {
    if creds != [] {
      WithdrawalsKeepTheRest(s, creds[..|creds| - 1]);
    }
  }

  lemma WithinEffect(a: Accumulator, i: BlockInput)
    requires i.block.ConwayBlock? && WithinEpoch(a, i.block, i.ctx, i.resolver).Ok?
    ensures var b := WithinEpoch(a, i.block, i.ctx, i.resolver).value;
      && b.epochState.epoch == a.epochState.epoch && b.pending == a.pending
      && b.prevBlocks == a.prevBlocks && b.prevFees == a.prevFees
      && b.epochState.blockProduction
           == a.epochState.blockProduction[i.ctx.issuer := GetOr(a.epochState.blockProduction, i.ctx.issuer) + 1]
      && b.epochState.epochFees == a.epochState.epochFees + BlockFees(i)
  {
    hide Scan, Kept, DeclaredFees, ForfeitedCollateral, BlockCerts, BlockGovernance, DecodeIndices, LenientIndices;
    var indices := DecodeIndices(i.block.invalidField, |i.block.txs|).value;
    ScanSplitsByValidity(i.block.txs, Elements(indices), i.resolver);
  }

  // What the buffers hold.

  /** The seed's own counts belong to its epoch. */
  function StartingCounts(s: Accumulator, e: U64): map<PoolId, nat> {
    if e == s.epochState.epoch then s.epochState.blockProduction else map[]
  }

  function StartingFees(s: Accumulator, e: U64): nat {
    if e == s.epochState.epoch then s.epochState.epochFees else 0
  }

  /** The fees that stay of the seed's pot, once its boundary has drawn on it. */
  function RemainingFees(s: Accumulator, e: U64): int {
    if e == s.epochState.epoch then s.epochState.epochFees - SeedDraw(s) else 0
  }

  /**
   The current buffer holds this epoch's blocks and fees, the previous one the last
   epoch's, and the seed authority is pending exactly while the seed epoch lasts.
   */
  ghost predicate Buffers(s: Accumulator, inputs: seq<BlockInput>, a: Accumulator) {
    var e := a.epochState.epoch;
    && s.epochState.epoch <= e && NoneAfter(inputs, e)
    && a.epochState.blockProduction == Tally(StartingCounts(s, e), inputs, e)
    && a.epochState.epochFees == StartingFees(s, e) + FeesIn(inputs, e)
    && (e == s.epochState.epoch ==>
          a.prevBlocks == s.prevBlocks && a.prevFees == s.prevFees && a.pending == s.pending)
    && (e > s.epochState.epoch ==>
          && a.prevBlocks == Tally(StartingCounts(s, e - 1), inputs, e - 1)
          && a.prevFees == RemainingFees(s, e - 1) + FeesIn(inputs, e - 1)
          && a.pending == None
          && (s.pending.Some? ==> s.pending.value.targetEpoch == s.epochState.epoch))
  }

  lemma EnterKeepsBuffers(w: World, s: Accumulator, inputs: seq<BlockInput>, a: Accumulator, ctx: Context)
    requires Buffers(s, inputs, a) && Step(w, a, Enter(ctx)).Ok?
    ensures Buffers(s, inputs, Step(w, a, Enter(ctx)).value)
  {
    hide Cross, Tally, FeesIn, SeedDraw;
    var e := a.epochState.epoch;
    CrossEffect(w, a, e + 1, ctx);
    NothingLater(StartingCounts(s, e + 1), inputs, e, e + 1);
    if e > s.epochState.epoch {
      NoDrawWithoutPending(a);
    } else {
      SameDraw(s, a);
    }
  }

  lemma NoDrawWithoutPending(a: Accumulator)
    requires a.pending == None
    ensures SeedDraw(a) == 0
  {
  }

  lemma SameDraw(a: Accumulator, b: Accumulator)
    requires a.pending == b.pending
    ensures SeedDraw(a) == SeedDraw(b)
  {
  }

  lemma TallyAppend(start: map<PoolId, nat>, inputs: seq<BlockInput>, i: BlockInput, e: U64)
    ensures Tally(start, inputs + [i], e)
         == if i.ctx.blockEpoch == e
            then Tally(start, inputs, e)[i.ctx.issuer := Count(Tally(start, inputs, e), i.ctx.issuer) + 1]
            else Tally(start, inputs, e)
    ensures FeesIn(inputs + [i], e) == FeesIn(inputs, e) + if i.ctx.blockEpoch == e then BlockFees(i) else 0
  {
    hide BlockFees;
    assert (inputs + [i])[..|inputs|] == inputs;
  }

  lemma ApplyKeepsBuffers(w: World, s: Accumulator, inputs: seq<BlockInput>, a: Accumulator, i: BlockInput)
    requires Buffers(s, inputs, a) && Step(w, a, Apply(i)).Ok?
    ensures Buffers(s, inputs + [i], Step(w, a, Apply(i)).value)
  {
    hide WithinEpoch, BlockFees, SeedDraw, Tally, FeesIn;
    WithinEffect(a, i);
    var e := a.epochState.epoch;
    TallyAppend(StartingCounts(s, e), inputs, i, e);
    if e > s.epochState.epoch {
      TallyAppend(StartingCounts(s, e - 1), inputs, i, e - 1);
    }
  }

  /** Whole-run buffer accounting, empty epochs included. */
  lemma {:induction false} RunKeepsBuffers(w: World, s: Accumulator, events: seq<Event>)
    requires Run(w, s, events).Ok?
    ensures Buffers(s, Applied(events), Run(w, s, events).value)
  {
    hide Step, Buffers;
    if events == [] {
      StartBuffers(s);
    } else {
      var n := |events| - 1;
      RunKeepsBuffers(w, s, events[..n]);
      var a := Run(w, s, events[..n]).value;
      match events[n]
      case Enter(ctx) =>
        EnterKeepsBuffers(w, s, Applied(events[..n]), a, ctx);
        assert Applied(events) == Applied(events[..n]);
      case Apply(i) => ApplyKeepsBuffers(w, s, Applied(events[..n]), a, i);
    }
  }

  lemma StartBuffers(s: Accumulator)
    ensures Buffers(s, [], s)
  {
  }

  // Blocks as events.

  function Enters(n: nat, ctx: Context): seq<Event> {
    if n == 0 then [] else Enters(n - 1, ctx) + [Enter(ctx)]
  }

  function EventsOf(from: U64, i: BlockInput): seq<Event> {
    Enters(if from < i.ctx.blockEpoch then i.ctx.blockEpoch - from else 0, i.ctx) + [Apply(i)]
  }

  /** The epoch reached after some blocks. */
  function Reached(from: U64, inputs: seq<BlockInput>): U64 {
    if inputs == [] then from else inputs[|inputs| - 1].ctx.blockEpoch
  }

  function Trace(from: U64, inputs: seq<BlockInput>): seq<Event> {
    if inputs == [] then
      []
    else
      var init := inputs[..|inputs| - 1];
      Trace(from, init) + EventsOf(Reached(from, init), inputs[|inputs| - 1])
  }

  lemma {:induction false} RunConcat(w: World, a: Accumulator, xs: seq<Event>, ys: seq<Event>)
    requires Run(w, a, xs).Ok?
    ensures Run(w, a, xs + ys) == Run(w, Run(w, a, xs).value, ys)
  {
    hide Step;
    if ys == [] {
      assert xs + ys == xs;
    } else {
      var n := |ys| - 1;
      RunConcat(w, a, xs, ys[..n]);
      assert (xs + ys)[..|xs| + n] == xs + ys[..n];
    }
  }

  lemma {:induction false} AppliedConcat(xs: seq<Event>, ys: seq<Event>)
    ensures Applied(xs + ys) == Applied(xs) + Applied(ys)
  {
    if ys == [] {
      assert xs + ys == xs;
    } else {
      var n := |ys| - 1;
      AppliedConcat(xs, ys[..n]);
      assert (xs + ys)[..|xs| + n] == xs + ys[..n];
    }
  }

  lemma {:induction false} EntersApplyNothing(n: nat, ctx: Context)
    ensures Applied(Enters(n, ctx)) == []
  {
    if n > 0 {
      EntersApplyNothing(n - 1, ctx);
      assert Enters(n, ctx)[..|Enters(n, ctx)| - 1] == Enters(n - 1, ctx);
    }
  }

  lemma RunNothing(w: World, a: Accumulator)
    ensures Run(w, a, []) == Ok(a)
  {
  }

  lemma RunAppend(w: World, a: Accumulator, events: seq<Event>, e: Event)
    requires Run(w, a, events).Ok?
    ensures Run(w, a, events + [e]) == Step(w, Run(w, a, events).value, e)
  {
    hide Step;
    assert (events + [e])[..|events|] == events;
  }

  lemma {:induction false} CrossAllIsRun(w: World, a: Accumulator, epoch: U64, ctx: Context)
    requires a.epochState.epoch <= epoch && CrossAll(w, a, epoch, ctx).Ok?
    ensures Run(w, a, Enters(epoch - a.epochState.epoch, ctx)) == Ok(CrossAll(w, a, epoch, ctx).value.0)
    decreases epoch
  {
    hide Cross, Run;
    if a.epochState.epoch < epoch {
      CrossAllIsRun(w, a, epoch - 1, ctx);
      CrossAllIsOnePerBoundary(w, a, epoch - 1, ctx);
      RunAppend(w, a, Enters(epoch - 1 - a.epochState.epoch, ctx), Enter(ctx));
    } else {
      RunNothing(w, a);
    }
  }

  lemma BlockIsRun(w: World, a: Accumulator, i: BlockInput)
    requires ApplyBlock(w, a, i.block, i.ctx, i.resolver).Ok?
    ensures Run(w, a, EventsOf(a.epochState.epoch, i)) == Ok(ApplyBlock(w, a, i.block, i.ctx, i.resolver).value.0)
    ensures ApplyBlock(w, a, i.block, i.ctx, i.resolver).value.0.epochState.epoch == i.ctx.blockEpoch
  {
    hide CrossAll, WithinEpoch, BlockFees, Run, Cross, Enters;
    var n := i.ctx.blockEpoch - a.epochState.epoch;
    CrossAllIsRun(w, a, i.ctx.blockEpoch, i.ctx);
    CrossAllIsOnePerBoundary(w, a, i.ctx.blockEpoch, i.ctx);
    RunAppend(w, a, Enters(n, i.ctx), Apply(i));
    WithinEffect(CrossAll(w, a, i.ctx.blockEpoch, i.ctx).value.0, i);
  }

  /** A run of blocks is a run of events that applies exactly those blocks. */
  lemma {:induction false} BlocksAreRun(w: World, s: Accumulator, inputs: seq<BlockInput>)
    requires RunBlocks(w, s, inputs).Ok?
    ensures Run(w, s, Trace(s.epochState.epoch, inputs)) == Ok(RunBlocks(w, s, inputs).value)
    ensures Applied(Trace(s.epochState.epoch, inputs)) == inputs
    ensures RunBlocks(w, s, inputs).value.epochState.epoch == Reached(s.epochState.epoch, inputs)
  {
    hide ApplyBlock, Step, Enters;
    if inputs != [] {
      var n, from := |inputs| - 1, s.epochState.epoch;
      BlocksAreRun(w, s, inputs[..n]);
      var before := RunBlocks(w, s, inputs[..n]).value;
      BlockIsRun(w, before, inputs[n]);
      var events := EventsOf(Reached(from, inputs[..n]), inputs[n]);
      RunConcat(w, s, Trace(from, inputs[..n]), events);
      AppliedConcat(Trace(from, inputs[..n]), events);
      EventsApplyOne(Reached(from, inputs[..n]), inputs[n]);
    }
  }

  lemma EventsApplyOne(from: U64, i: BlockInput)
    ensures Applied(EventsOf(from, i)) == [i]
  {
    var n := if from < i.ctx.blockEpoch then i.ctx.blockEpoch - from else 0;
    EntersApplyNothing(n, i.ctx);
    AppliedConcat(Enters(n, i.ctx), [Apply(i)]);
    assert Applied([Apply(i)]) == [i] by {
      assert [Apply(i)][..0] == [];
    }
  }

  /**
   After any accepted list of blocks, crossing any number of epochs, the current buffer
   holds the blocks and fees of the epoch reached and the previous buffer those of the
   epoch before it; the seed authority is still pending only in the seed epoch.
   */
  lemma BufferAccounting(w: World, s: Accumulator, inputs: seq<BlockInput>)
    requires RunBlocks(w, s, inputs).Ok?
    ensures Buffers(s, inputs, RunBlocks(w, s, inputs).value)
  {
    hide RunBlocks, Run, Buffers;
    BlocksAreRun(w, s, inputs);
    RunKeepsBuffers(w, s, Trace(s.epochState.epoch, inputs));
  }

  // What the boundaries are fed.

  /**
   At every boundary after the seed's, into epoch e + 1, the reward calculation is fed
   the blocks and fees of epoch e - 1. At the seed boundary the typed authority decides.
   */
  lemma RewardIsFedTheEpochBefore(w: World, s: Accumulator, inputs: seq<BlockInput>, a: Accumulator)
    requires Buffers(s, inputs, a) && a.epochState.epoch < U64_MAX && Stage(w, a, a.epochState.epoch + 1).Ok?
    ensures var st, e := Stage(w, a, a.epochState.epoch + 1).value, a.epochState.epoch;
      if e > s.epochState.epoch then
        && st.fedBlocks == Tally(StartingCounts(s, e - 1), inputs, e - 1)
        && st.fedFees == RemainingFees(s, e - 1) + FeesIn(inputs, e - 1)
      else match s.pending
        case None => st.fedBlocks == s.prevBlocks && st.fedFees == s.prevFees
        case Some(Native(_, _, _, _, fee, _)) => st.fedBlocks == s.prevBlocks && st.fedFees == fee
        case Some(Imported(_, _, _, _, _, _, _, _, _)) => st.fedBlocks == map[] && st.fedFees == 0
  {
    hide Commitment, Tally, FeesIn, NoneAfter;
  }

  /** The fees an imported record accounts for by itself. */
  function ImportedFees(a: Accumulator): Coin {
    match a.pending
    case Some(Imported(_, _, _, _, _, _, fees, _, _)) => fees
    case _ => 0
  }

  /** What one boundary draws: what its calculation is fed, and what an imported record accounts for. */
  function DrawnAt(w: World, a: Accumulator): nat
    requires a.epochState.epoch < U64_MAX && Stage(w, a, a.epochState.epoch + 1).Ok?
  {
    Stage(w, a, a.epochState.epoch + 1).value.fedFees + ImportedFees(a)
  }

  lemma DrawnIsTaken(w: World, a: Accumulator)
    requires a.epochState.epoch < U64_MAX && Stage(w, a, a.epochState.epoch + 1).Ok?
    requires a.pending.Some? ==> a.prevFees == 0
    ensures DrawnAt(w, a) == SeedDraw(a) + a.prevFees
  {
    hide Commitment;
  }

  ghost function Drawn(w: World, s: Accumulator, events: seq<Event>): nat
    requires Run(w, s, events).Ok?
  {
    if events == [] then
      0
    else
      var n := |events| - 1;
      var a := Run(w, s, events[..n]).value;
      Drawn(w, s, events[..n]) + if events[n].Enter? then DrawnAt(w, a) else 0
  }

  /**
   No fee is lost or counted twice: the seed's pot and all block fees are what the
   boundaries drew and what the two buffers still hold.
   */
  lemma {:induction false} FeesAreConserved(w: World, s: Accumulator, events: seq<Event>)
    requires s.pending.Some? ==> s.prevFees == 0
    requires Run(w, s, events).Ok?
    ensures var a := Run(w, s, events).value;
      && s.epochState.epochFees + s.prevFees + AllFees(Applied(events))
           == Drawn(w, s, events) + a.epochState.epochFees + a.prevFees
      && (a.pending.Some? ==> a.prevFees == 0)
  {
    hide Cross, WithinEpoch, BlockFees, SeedDraw, DrawnAt;
    if events != [] {
      var n := |events| - 1;
      FeesAreConserved(w, s, events[..n]);
      var a := Run(w, s, events[..n]).value;
      match events[n]
      case Enter(ctx) =>
        CrossEffect(w, a, a.epochState.epoch + 1, ctx);
        assert Applied(events) == Applied(events[..n]);
        EnterStages(w, a, ctx);
        DrawnIsTaken(w, a);
      case Apply(i) =>
        WithinEffect(a, i);
        assert Applied(events)[..|Applied(events[..n])|] == Applied(events[..n]);
    }
  }

  lemma EnterStages(w: World, a: Accumulator, ctx: Context)
    requires Step(w, a, Enter(ctx)).Ok?
    ensures a.epochState.epoch < U64_MAX && Stage(w, a, a.epochState.epoch + 1).Ok?
  {
    hide Settle, Stage;
  }

  /**
   From a bootstrapped ledger: its one fee pot and every block fee since are what the
   boundaries drew and what the buffers hold, whatever seed authority came with it.
   */
  lemma SeededRunConservesFees(
    b: Bootstrap, epoch: U64, pending: Option<SeedRewardAuthority>, blocks: map<PoolId, U64>, s: Accumulator,
    w: World, events: seq<Event>, a: Accumulator)
    requires SeedFromBootstrap(b, epoch, pending, blocks) == Ok(s) && Run(w, s, events) == Ok(a)
    ensures b.epochState.epochFees + AllFees(Applied(events))
         == Drawn(w, s, events) + a.epochState.epochFees + a.prevFees
  {
    hide Run, Drawn, AllFees;
    FeesAreConserved(w, s, events);
  }

  /** Whatever governance enacts, the accumulator keeps the parameters it was seeded with. */
  lemma {:induction false} EnactedParametersAreNotReadBack(w: World, s: Accumulator, events: seq<Event>)
    requires Run(w, s, events).Ok?
    ensures Run(w, s, events).value.params == s.params
  {
    hide Cross, WithinEpoch;
    if events != [] {
      var n := |events| - 1;
      EnactedParametersAreNotReadBack(w, s, events[..n]);
      var a := Run(w, s, events[..n]).value;
      match events[n]
      case Enter(ctx) => CrossKeepsParams(w, a, a.epochState.epoch + 1, ctx);
      case Apply(i) => WithinKeepsParams(a, i);
    }
  }

  /**
   A crossing leaves the accumulator with the parameters the boundary computed if and
   only if governance enacted none, or those already held.
   */
  lemma ParametersReadBackIff(w: World, a: Accumulator, target: U64, ctx: Context)
    requires Cross(w, a, target, ctx).Ok?
    ensures Prepare(w, a, target, ctx).Some? && Boundary(Prepare(w, a, target, ctx).value.input, target).Ok?
    ensures var p := Prepare(w, a, target, ctx).value;
      Cross(w, a, target, ctx).value.acc.params == Boundary(p.input, target).value.params <==>
        p.plan.enacted.None? || p.plan.enacted == Some(a.params)
  {
    hide Cross, Stage, Boundary;
    CrossIsPrepared(w, a, target, ctx);
    CrossKeepsParams(w, a, target, ctx);
    StageEffect(w, a, target);
    BoundaryParams(Prepare(w, a, target, ctx).value.input, target);
  }

  lemma BoundaryParams(i: BoundaryInput, target: U64)
    requires Boundary(i, target).Ok?
    ensures Boundary(i, target).value.params == ParamsAfter(i.params, i.enacted)
  {
    hide MarkSpec, RewardsAfterUpdate, RewardsAfterReap, TreasuryBeforeDonations, Reap, ReturnToAccounts;
  }

  lemma CrossKeepsParams(w: World, a: Accumulator, target: U64, ctx: Context)
    requires Cross(w, a, target, ctx).Ok?
    ensures Cross(w, a, target, ctx).value.acc.params == a.params
  {
    hide Stage, Boundary;
    StageEffect(w, a, target);
  }

  lemma WithinKeepsParams(a: Accumulator, i: BlockInput)
    requires i.block.ConwayBlock? && WithinEpoch(a, i.block, i.ctx, i.resolver).Ok?
    ensures WithinEpoch(a, i.block, i.ctx, i.resolver).value.params == a.params
    ensures WithinEpoch(a, i.block, i.ctx, i.resolver).value.epochState.snapshots == a.epochState.snapshots
  {
    hide Scan, BlockCerts, BlockGovernance, DecodeIndices, LenientIndices;
  }

  function Crossings(events: seq<Event>): nat {
    if events == [] then 0 else Crossings(events[..|events| - 1]) + if events[|events| - 1].Enter? then 1 else 0
  }

  /**
   A pending authority is consumed at the first boundary and only if that is its own,
   and none ever reappears.
   */
  lemma {:induction false} SeedAuthorityIsOneShot(w: World, s: Accumulator, events: seq<Event>)
    requires Run(w, s, events).Ok?
    ensures var a := Run(w, s, events).value;
      && a.pending == (if Crossings(events) == 0 then s.pending else None)
      && a.epochState.epoch == s.epochState.epoch + Crossings(events)
      && (Crossings(events) > 0 && s.pending.Some? ==> s.pending.value.targetEpoch == s.epochState.epoch)
  {
    hide Cross, WithinEpoch, BlockFees, SeedDraw;
    if events != [] {
      var n := |events| - 1;
      SeedAuthorityIsOneShot(w, s, events[..n]);
      var a := Run(w, s, events[..n]).value;
      match events[n]
      case Enter(ctx) => CrossEffect(w, a, a.epochState.epoch + 1, ctx);
      case Apply(i) => WithinEffect(a, i);
    }
  }

  // A run exists.

  /** An idle world: no rewards, nothing to ratify, one hash for everything. */
  function IdleWorld(h: Hash32): World {
    World(_ => h, _ => Some(RewardUpdate(0, 0, 0, map[], 0)), (_, _, _) => None, (_, _) => true)
  }

  /** A seed in epoch 5 with nothing registered, whose boundary is owed a native reward from `feeSs`. */
  function NativeSeed(h: Hash32, params: ProtocolParams, fees: Coin, feeSs: Coin): Accumulator {
    var none := StakeSnapshot(map[], map[], map[]);
    Accumulator(
      EpochState(5, 0, Some(SnapshotState(none, none, none)), 0, 0, map[], fees, 0), map[], 0,
      CertState(DelegationState(map[], map[], map[]), PoolState(map[], map[], map[])), params, None, None, 0,
      Some(Native(h, 0, h, 5, feeSs, h)))
  }

  /** The premises of the run theorems can be met: such a seed crosses its boundary and applies an empty block. */
  lemma SeedBoundaryCanBeCrossed(h: Hash32, params: ProtocolParams, fees: Coin, feeSs: Coin, issuer: PoolId)
    requires feeSs <= fees
    ensures var s := NativeSeed(h, params, fees, feeSs);
      var ctx := Context(CONWAY, 6, 1, issuer, Some(map[]), 1);
      var r := Run(IdleWorld(h), s, [Enter(ctx), Apply(BlockInput(ConwayBlock([], None), ctx, None))]);
      && r.Ok? && r.value.epochState.epoch == 6 && r.value.pending == None
      && r.value.prevFees == fees - feeSs && r.value.epochState.blockProduction == map[issuer := 1]
  {
    hide Cross, WithinEpoch, BlockFees;
    var w, s := IdleWorld(h), NativeSeed(h, params, fees, feeSs);
    var ctx := Context(CONWAY, 6, 1, issuer, Some(map[]), 1);
    var i := BlockInput(ConwayBlock([], None), ctx, None);
    IdleCrossing(h, params, fees, feeSs, ctx);
    CrossEffect(w, s, 6, ctx);
    var a := Cross(w, s, 6, ctx).value.acc;
    EmptyBlockApplies(a, ctx);
    WithinEffect(a, i);
    assert [Enter(ctx)][..0] == [] && [Enter(ctx), Apply(i)][..1] == [Enter(ctx)];
    assert Run(w, s, []) == Ok(s);
    assert Run(w, s, [Enter(ctx)]) == Ok(a);
  }

  lemma IdleCrossing(h: Hash32, params: ProtocolParams, fees: Coin, feeSs: Coin, ctx: Context)
    requires feeSs <= fees && ctx.boundaryMark.Some? && ctx.activeSlots > 0
    ensures Cross(IdleWorld(h), NativeSeed(h, params, fees, feeSs), 6, ctx).Ok?
    ensures Cross(IdleWorld(h), NativeSeed(h, params, fees, feeSs), 6, ctx).value.acc.gov == None
  {
    hide MarkSpec, RewardsAfterUpdate, RewardsAfterReap, TreasuryBeforeDonations, Reap, ReturnToAccounts, Body;
    var w, s := IdleWorld(h), NativeSeed(h, params, fees, feeSs);
    assert Stage(w, s, 6).Ok?;
    var st := Stage(w, s, 6).value;
    assert BoundaryInputFor(w, st, 6, ctx.boundaryMark.value, ctx.activeSlots).Some?;
  }

  lemma EmptyBlockApplies(a: Accumulator, ctx: Context)
    requires a.epochState.blockProduction == map[] && a.gov == None
    ensures WithinEpoch(a, ConwayBlock([], None), ctx, None).Ok?
  {
  }

  // A run that loses enacted parameters.

  /** Governance that enacts the same parameters at every boundary and has no proposals left. */
  function EnactingWorld(h: Hash32, enacted: ProtocolParams): World {
    IdleWorld(h).(governance := (_, _, _) => Some(GovPlan([], [], Some(enacted))))
  }

  function GovernedSeed(h: Hash32, params: ProtocolParams, fees: Coin, feeSs: Coin): Accumulator {
    NativeSeed(h, params, fees, feeSs).(gov := Some(Gov.GovState([], map[], map[], map[], 1)))
  }

  /** The boundary is accepted and computes the enacted parameters; the accumulator goes on with the held ones. */
  lemma EnactedParametersAreLost(
    h: Hash32, held: ProtocolParams, enacted: ProtocolParams, fees: Coin, feeSs: Coin, ctx: Context)
    requires feeSs <= fees && ctx.boundaryMark.Some? && ctx.activeSlots > 0
    ensures var w, s := EnactingWorld(h, enacted), GovernedSeed(h, held, fees, feeSs);
      && Run(w, s, [Enter(ctx)]).Ok? && Run(w, s, [Enter(ctx)]).value.params == held
      && Prepare(w, s, 6, ctx).Some? && Boundary(Prepare(w, s, 6, ctx).value.input, 6).Ok?
      && Boundary(Prepare(w, s, 6, ctx).value.input, 6).value.params == enacted
  {
    hide Cross, Stage, Boundary, Prepare, ReadBack, BoundaryInputFor;
    var w, s := EnactingWorld(h, enacted), GovernedSeed(h, held, fees, feeSs);
    EnactingCrossing(h, held, enacted, fees, feeSs, ctx);
    CrossIsPrepared(w, s, 6, ctx);
    CrossKeepsParams(w, s, 6, ctx);
    BoundaryParams(Prepare(w, s, 6, ctx).value.input, 6);
    assert [Enter(ctx)][..0] == [];
    assert Run(w, s, []) == Ok(s);
  }

  lemma EnactingCrossing(
    h: Hash32, held: ProtocolParams, enacted: ProtocolParams, fees: Coin, feeSs: Coin, ctx: Context)
    requires feeSs <= fees && ctx.boundaryMark.Some? && ctx.activeSlots > 0
    ensures var w, s := EnactingWorld(h, enacted), GovernedSeed(h, held, fees, feeSs);
      Cross(w, s, 6, ctx).Ok? && Prepare(w, s, 6, ctx).Some?
      && Prepare(w, s, 6, ctx).value.input.enacted == Some(enacted)
  {
    hide MarkSpec, RewardsAfterUpdate, RewardsAfterReap, TreasuryBeforeDonations, Reap, ReturnToAccounts, Body;
    var w, s := EnactingWorld(h, enacted), GovernedSeed(h, held, fees, feeSs);
    assert Stage(w, s, 6).Ok?;
    var st := Stage(w, s, 6).value;
    assert BoundaryInputFor(w, st, 6, ctx.boundaryMark.value, ctx.activeSlots).Some?;
  }
}
