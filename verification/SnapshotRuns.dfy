/**
 The stake snapshots over whole runs of the accumulator: which mark is paid at which
 boundary.
 */
module SnapshotRuns {
  import opened LedgerTypes
  import opened Snapshots
  import opened EpochBoundary
  import opened Accumulator
  import opened AccumulatorLaws
  import opened CrossingLaws
  import Runs = AccumulatorRuns

  /** The mark a crossing builds, from the delegations and pools it finds. */
  ghost function BuiltMark(w: World, a: Accumulator, target: U64, ctx: Context): StakeSnapshot {
    MarkSpec(BaseStake(ctx), MarkRewards(w, a, target, ctx), a.certState.delegation.delegations, a.certState.pool.pools)
  }

  /** The marks of a run, oldest first: the seed's go, set and mark, then the one each boundary built. */
  ghost function Marks(w: World, s: Accumulator, events: seq<Runs.Event>): seq<StakeSnapshot>
    requires s.epochState.snapshots.Some?
  {
    if events == [] then
      var snapshots := s.epochState.snapshots.value;
      [snapshots.go, snapshots.set_, snapshots.mark]
    else
      var init := events[..|events| - 1];
      Marks(w, s, init)
      + match (events[|events| - 1], Runs.Run(w, s, init)) {
          case (Enter(ctx), Ok(a)) =>
            if a.epochState.epoch < U64_MAX then [BuiltMark(w, a, a.epochState.epoch + 1, ctx)] else []
          case _ => []
        }
  }

  /** The three snapshots held are the three latest marks. */
  ghost predicate HoldsLatest(marks: seq<StakeSnapshot>, a: Accumulator) {
    var n := |marks|;
    && 3 <= n && a.epochState.snapshots.Some?
    && a.epochState.snapshots.value.go == marks[n - 3]
    && a.epochState.snapshots.value.set_ == marks[n - 2]
    && a.epochState.snapshots.value.mark == marks[n - 1]
  }

  lemma CrossShifts(marks: seq<StakeSnapshot>, w: World, a: Accumulator, target: U64, ctx: Context)
    requires HoldsLatest(marks, a) && Cross(w, a, target, ctx).Ok?
    ensures HoldsLatest(marks + [BuiltMark(w, a, target, ctx)], Cross(w, a, target, ctx).value.acc)
  {
    hide Cross, MarkSpec, MarkRewards;
    CrossRotates(w, a, target, ctx);
    CrossFreezesItsMark(w, a, target, ctx, Cross(w, a, target, ctx).value);
  }

  /** At every point of a run, one mark a boundary on top of the seed's three, and the latest three held. */
  lemma {:induction false} RunHoldsLatest(w: World, s: Accumulator, events: seq<Runs.Event>, a: Accumulator)
    requires s.epochState.snapshots.Some? && Runs.Run(w, s, events) == Ok(a)
    ensures HoldsLatest(Marks(w, s, events), a) && |Marks(w, s, events)| == 3 + Runs.Crossings(events)
  {
    hide Cross, WithinEpoch, BuiltMark;
    if events != [] {
      var n := |events| - 1;
      var before := Runs.Run(w, s, events[..n]).value;
      RunHoldsLatest(w, s, events[..n], before);
      match events[n]
      case Enter(ctx) =>
        CrossShifts(Marks(w, s, events[..n]), w, before, before.epochState.epoch + 1, ctx);
      case Apply(i) => Runs.WithinKeepsParams(before, i);
    }
  }

  /**
   The boundary after n others pays the mark built three boundaries before it; the first
   three pay the seed's go, set and mark.
   */
  lemma ThirdMarkIsPaid(
    w: World, s: Accumulator, events: seq<Runs.Event>, a: Accumulator, target: U64, ctx: Context)
    requires s.epochState.snapshots.Some? && Runs.Run(w, s, events) == Ok(a)
    requires Prepare(w, a, target, ctx).Some?
    ensures Runs.Crossings(events) < |Marks(w, s, events)|
    ensures var p, n := Prepare(w, a, target, ctx).value, Runs.Crossings(events);
      w.rewards(RewardInputs(a.epochState.reserves, p.staged.fedFees, p.staged.fedBlocks, Marks(w, s, events)[n],
                             a.maxSupply, a.params, ctx.activeSlots))
      == Some(p.input.update)
  {
    hide Prepare, Runs.Run, Marks;
    RunHoldsLatest(w, s, events, a);
    CrossingIsFed(w, a, target, ctx);
  }
}
