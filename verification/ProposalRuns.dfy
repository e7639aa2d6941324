/**
 The tracked proposals over whole runs of the accumulator: what submits them, what keeps
 them apart, and that what a boundary removes stays removed.
 */
module ProposalRuns {
  import opened LedgerTypes
  import opened Certificates
  import opened EpochBoundary
  import opened AccumulatorCodecs
  import opened Votes
  import opened BlockScan
  import opened BlockEffects
  import opened Accumulator
  import opened CrossingLaws
  import opened RunLaws
  import Runs = AccumulatorRuns
  import Gov = GovernanceCerts

  // Proposals.

  /** Distinct ids, and one entry a voter in each role's list. */
  ghost predicate Tidy(ps: seq<Gov.Proposal>) {
    DistinctIds(ps) && forall i :: 0 <= i < |ps| ==> WellKept(ps[i])
  }

  /** All proposals were submitted by transactions among `seen`. */
  ghost predicate From(ps: seq<Gov.Proposal>, seen: set<Hash32>) {
    forall i :: 0 <= i < |ps| ==> ps[i].actionId.txHash in seen
  }

  lemma CastKeepsTidy(ps: seq<Gov.Proposal>, ballots: seq<Ballot>)
    requires Tidy(ps) && CastAll(ps, ballots).Some?
    ensures var after := CastAll(ps, ballots).value;
      && |after| == |ps| && Tidy(after)
      && forall i :: 0 <= i < |ps| ==> after[i].actionId == ps[i].actionId
  {
    hide CastAll, WellKept, Recorded, LastVote;
    var after := CastAll(ps, ballots).value;
    if ps == [] {
      NoProposalsNoVotes(ballots);
    } else {
      var voter := PoolVoter(seq(28, _ => 0));
      StoreIsLastWriteWins(ps, ballots, 0, Pool, voter);
      assert DistinctIds(after);
      forall i | 0 <= i < |ps|
        ensures WellKept(after[i])
      {
        StoreIsLastWriteWins(ps, ballots, i, Pool, voter);
      }
    }
  }

  lemma NoProposalsNoVotes(ballots: seq<Ballot>)
    ensures CastAll([], ballots) == Some([])
  {
    UntrackedVotesIgnored([], ballots);
  }

  lemma SubmissionsAreTidy(ps: seq<Gov.Proposal>, seen: set<Hash32>, tx: TxBody, epoch: U64, expiresAfter: U64)
    requires Tidy(ps) && From(ps, seen) && tx.txId !in seen
    ensures Tidy(ps + AsProposals(tx, epoch, expiresAfter))
    ensures From(ps + AsProposals(tx, epoch, expiresAfter), seen + {tx.txId})
  {
    var added := AsProposals(tx, epoch, expiresAfter);
    var all := ps + added;
    forall i | 0 <= i < |added|
      ensures WellKept(added[i]) && added[i].actionId == Gov.GovActionId(tx.txId, i)
    {
      NoVotesYet(added[i]);
    }
    hide WellKept, AsProposals;
    forall i, j | 0 <= i < j < |all|
      ensures all[i].actionId != all[j].actionId
    {
      if i < |ps| && j >= |ps| {
        assert all[i].actionId.txHash in seen;
      }
    }
  }

  lemma NoVotesYet(p: Gov.Proposal)
    requires p.committeeVotes == [] && p.drepVotes == [] && p.spoVotes == []
    ensures WellKept(p)
  {
  }

  /** The transactions among `seen`, and those of the block that submit proposals and are kept. */
  function SeenAfter(seen: set<Hash32>, txs: seq<TxBody>, invalid: set<nat>): set<Hash32> {
    if txs == [] then
      seen
    else
      var n := |txs| - 1;
      SeenAfter(seen, txs[..n], invalid)
      + if n !in invalid && txs[n].proposals != [] then {txs[n].txId} else {}
  }

  /** No kept transaction that submits proposals has the id of an earlier one. */
  predicate FreshIds(seen: set<Hash32>, txs: seq<TxBody>, invalid: set<nat>) {
    if txs == [] then
      true
    else
      var n := |txs| - 1;
      && FreshIds(seen, txs[..n], invalid)
      && (n !in invalid && txs[n].proposals != [] ==> txs[n].txId !in SeenAfter(seen, txs[..n], invalid))
  }

  lemma TxKeepsTidy(g: Gov.GovState, seen: set<Hash32>, tx: TxBody, epoch: U64)
    requires Tidy(g.proposals) && From(g.proposals, seen) && (tx.proposals != [] ==> tx.txId !in seen)
    requires ApplyTxGovernance(g, tx, epoch).Some?
    ensures var ps := ApplyTxGovernance(g, tx, epoch).value.proposals;
      Tidy(ps) && From(ps, seen + if tx.proposals != [] then {tx.txId} else {})
  {
    hide CastAll, Tidy;
    var expiresAfter := SatAdd(epoch, g.govActionLifetime);
    if tx.proposals == [] {
      assert g.proposals + AsProposals(tx, epoch, expiresAfter) == g.proposals;
    } else {
      SubmissionsAreTidy(g.proposals, seen, tx, epoch, expiresAfter);
    }
    CastKeepsTidy(g.proposals + AsProposals(tx, epoch, expiresAfter), tx.ballots);
  }

  lemma {:induction false} BlockKeepsTidy(
    g: Gov.GovState, seen: set<Hash32>, txs: seq<TxBody>, invalid: set<nat>, epoch: U64)
    requires Tidy(g.proposals) && From(g.proposals, seen) && FreshIds(seen, txs, invalid)
    requires BlockGovernance(g, txs, invalid, epoch).Some?
    ensures var ps := BlockGovernance(g, txs, invalid, epoch).value.proposals;
      Tidy(ps) && From(ps, SeenAfter(seen, txs, invalid))
  {
    hide ApplyTxGovernance, Tidy;
    if txs != [] {
      var n := |txs| - 1;
      BlockKeepsTidy(g, seen, txs[..n], invalid, epoch);
      var before := BlockGovernance(g, txs[..n], invalid, epoch).value;
      if n !in invalid {
        TxKeepsTidy(before, SeenAfter(seen, txs[..n], invalid), txs[n], epoch);
      }
    }
  }

  lemma {:induction false} TxCertsKeepProposals(
    s: CertAndGov, certs: seq<ConwayCert>, keyDeposit: Coin, env: Option<Gov.GovCertEnv>)
    requires ApplyTxCerts(s, certs, keyDeposit, env).Some?
    ensures SameProposals(s.gov, ApplyTxCerts(s, certs, keyDeposit, env).value.gov)
  {
    hide ApplyConwayCert, Gov.ApplyGovCert;
    if certs != [] {
      var n := |certs| - 1;
      TxCertsKeepProposals(s, certs[..n], keyDeposit, env);
      var before := ApplyTxCerts(s, certs[..n], keyDeposit, env).value;
      if before.gov.Some? {
        GovCertKeepsProposals(before.gov.value, certs[n], env);
      }
    }
  }

  predicate SameProposals(before: Option<Gov.GovState>, after: Option<Gov.GovState>) {
    && before.Some? == after.Some?
    && (before.Some? ==>
          && before.value.proposals == after.value.proposals
          && before.value.govActionLifetime == after.value.govActionLifetime)
  }

  lemma GovCertKeepsProposals(g: Gov.GovState, cert: ConwayCert, env: Option<Gov.GovCertEnv>)
    ensures Gov.ApplyGovCert(g, cert, env).Ok? ==> SameProposals(Some(g), Some(Gov.ApplyGovCert(g, cert, env).value))
  {
  }

  lemma {:induction false} BlockCertsKeepProposals(
    s: CertAndGov, txs: seq<TxBody>, invalid: set<nat>, keyDeposit: Coin, env: Option<Gov.GovCertEnv>)
    requires BlockCerts(s, txs, invalid, keyDeposit, env).Some?
    ensures SameProposals(s.gov, BlockCerts(s, txs, invalid, keyDeposit, env).value.gov)
  {
    hide ApplyTxCerts;
    if txs != [] {
      var n := |txs| - 1;
      BlockCertsKeepProposals(s, txs[..n], invalid, keyDeposit, env);
      if n !in invalid {
        var before := BlockCerts(s, txs[..n], invalid, keyDeposit, env).value;
        TxCertsKeepProposals(before, SeenCerts(txs[n]), keyDeposit, env);
      }
    }
  }

  function ProposalsOf(gov: Option<Gov.GovState>): seq<Gov.Proposal> {
    if gov.Some? then gov.value.proposals else []
  }

  lemma WithinKeepsTidy(a: Accumulator, i: Runs.BlockInput, seen: set<Hash32>)
    requires i.block.ConwayBlock? && WithinEpoch(a, i.block, i.ctx, i.resolver).Ok?
    requires Tidy(ProposalsOf(a.gov)) && From(ProposalsOf(a.gov), seen)
    requires FreshIds(seen, i.block.txs, Runs.InvalidOf(i))
    ensures var ps := ProposalsOf(WithinEpoch(a, i.block, i.ctx, i.resolver).value.gov);
      Tidy(ps) && From(ps, SeenAfter(seen, i.block.txs, Runs.InvalidOf(i)))
  {
    hide Scan, BlockCerts, BlockGovernance, DecodeIndices, LenientIndices, WithdrawAll, Tidy, FreshIds, SeenAfter;
    var before, lenient := CertAndGov(a.certState, a.gov), LenientIndices(i.block.invalidField);
    BlockCertsKeepProposals(before, i.block.txs, lenient, a.params.keyDeposit, CertEnv(a));
    var certs := BlockCerts(before, i.block.txs, lenient, a.params.keyDeposit, CertEnv(a)).value;
    if certs.gov.Some? {
      BlockKeepsTidy(certs.gov.value, seen, i.block.txs, Runs.InvalidOf(i), i.ctx.blockEpoch);
    } else {
      NothingIsTidy(SeenAfter(seen, i.block.txs, Runs.InvalidOf(i)));
    }
  }

  lemma NothingIsTidy(seen: set<Hash32>)
    ensures Tidy([]) && From([], seen)
  {
  }

  /** What governance keeps at a boundary is some of the proposals, in order. */
  predicate Subsequence(xs: seq<Gov.Proposal>, ys: seq<Gov.Proposal>) {
    if xs == [] then true
    else if ys == [] then false
    else if xs[|xs| - 1] == ys[|ys| - 1] then Subsequence(xs[..|xs| - 1], ys[..|ys| - 1])
    else Subsequence(xs, ys[..|ys| - 1])
  }

  ghost predicate Prunes(w: World) {
    forall g, cs, target {:trigger w.governance(g, cs, target)} ::
      w.governance(g, cs, target).Some? ==> Subsequence(w.governance(g, cs, target).value.proposals, g.proposals)
  }

  lemma {:induction false} SubsequenceElement(xs: seq<Gov.Proposal>, ys: seq<Gov.Proposal>, i: nat)
    requires Subsequence(xs, ys) && i < |xs|
    ensures xs[i] in ys
    decreases |ys|
  {
    var n := |ys| - 1;
    assert ys == ys[..n] + [ys[n]];
    if xs[|xs| - 1] == ys[n] {
      if i < |xs| - 1 {
        SubsequenceElement(xs[..|xs| - 1], ys[..n], i);
      }
    } else {
      SubsequenceElement(xs, ys[..n], i);
    }
  }

  lemma {:induction false} PruningKeepsTidy(xs: seq<Gov.Proposal>, ys: seq<Gov.Proposal>, seen: set<Hash32>)
    requires Subsequence(xs, ys) && Tidy(ys) && From(ys, seen)
    ensures Tidy(xs) && From(xs, seen)
    decreases |ys|
  {
    hide WellKept;
    if xs != [] {
      var n, m := |ys| - 1, |xs| - 1;
      assert Tidy(ys[..n]) && From(ys[..n], seen);
      if xs[m] == ys[n] {
        PruningKeepsTidy(xs[..m], ys[..n], seen);
        forall i | 0 <= i < m
          ensures xs[i].actionId != xs[m].actionId
        {
          SubsequenceElement(xs[..m], ys[..n], i);
          var j :| 0 <= j < n && ys[..n][j] == xs[i];
          assert ys[j].actionId != ys[n].actionId;
        }
        forall i | 0 <= i < |xs|
          ensures WellKept(xs[i]) && xs[i].actionId.txHash in seen
        {
          if i < m {
            assert xs[..m][i] == xs[i];
          }
        }
        forall i, j | 0 <= i < j < |xs|
          ensures xs[i].actionId != xs[j].actionId
        {
          if j < m {
            assert xs[..m][i] == xs[i] && xs[..m][j] == xs[j];
          }
        }
      } else {
        PruningKeepsTidy(xs, ys[..n], seen);
      }
    }
  }

  lemma CrossPrunes(w: World, a: Accumulator, target: U64, ctx: Context)
    requires Prunes(w) && Cross(w, a, target, ctx).Ok?
    ensures Subsequence(ProposalsOf(Cross(w, a, target, ctx).value.acc.gov), ProposalsOf(a.gov))
  {
    hide Cross, Stage, Boundary, BoundaryInputFor, Prepare, Subsequence;
    CrossIsPrepared(w, a, target, ctx);
    Runs.StageEffect(w, a, target);
    var p := Prepare(w, a, target, ctx).value;
    PreparedInput(w, p.staged, target, ctx.boundaryMark.value, ctx.activeSlots);
    NothingIsSubsequence();
  }

  lemma NothingIsSubsequence()
    ensures Subsequence([], [])
  {
  }

  /** The ids seen over a run, and that none comes twice. */
  function SeenBy(seen: set<Hash32>, events: seq<Runs.Event>): set<Hash32> {
    if events == [] then
      seen
    else
      var before := SeenBy(seen, events[..|events| - 1]);
      match events[|events| - 1]
      case Enter(_) => before
      case Apply(i) => if i.block.ConwayBlock? then SeenAfter(before, i.block.txs, Runs.InvalidOf(i)) else before
  }

  predicate FreshRun(seen: set<Hash32>, events: seq<Runs.Event>) {
    if events == [] then
      true
    else
      var init := events[..|events| - 1];
      && FreshRun(seen, init)
      && match events[|events| - 1] {
           case Enter(_) => true
           case Apply(i) => i.block.ConwayBlock? ==> FreshIds(SeenBy(seen, init), i.block.txs, Runs.InvalidOf(i))
         }
  }

  /**
   Every run whose proposing transactions have fresh ids keeps distinct proposal ids and
   one entry a voter, so the vote store stays a last-write-wins map throughout.
   */
  lemma {:induction false} RunKeepsTidy(
    w: World, s: Accumulator, events: seq<Runs.Event>, seen: set<Hash32>, a: Accumulator)
    requires Prunes(w) && Tidy(ProposalsOf(s.gov)) && From(ProposalsOf(s.gov), seen)
    requires Runs.Run(w, s, events) == Ok(a) && FreshRun(seen, events)
    ensures Tidy(ProposalsOf(a.gov)) && From(ProposalsOf(a.gov), SeenBy(seen, events))
  {
    hide Cross, WithinEpoch, Prunes, Tidy, From, ProposalsOf, SeenAfter, FreshIds;
    if events != [] {
      var n := |events| - 1;
      var before := Runs.Run(w, s, events[..n]).value;
      RunKeepsTidy(w, s, events[..n], seen, before);
      match events[n]
      case Enter(ctx) =>
        CrossPrunes(w, before, before.epochState.epoch + 1, ctx);
        PruningKeepsTidy(ProposalsOf(a.gov), ProposalsOf(before.gov), SeenBy(seen, events[..n]));
      case Apply(i) => WithinKeepsTidy(before, i, SeenBy(seen, events[..n]));
    }
  }

  // What is submitted.

  lemma {:induction false} CastKeepsTerms(ps: seq<Gov.Proposal>, ballots: seq<Ballot>)
    requires CastAll(ps, ballots).Some?
    ensures var after := CastAll(ps, ballots).value;
      |after| == |ps| && forall i :: 0 <= i < |ps| ==> SameButVotes(ps[i], after[i])
  {
    if ballots != [] {
      CastKeepsTerms(ps, ballots[..|ballots| - 1]);
    }
  }

  /**
   A transaction's submissions are tracked after the others, numbered in order under its
   id, with their deposits, from this epoch for one lifetime; of the others only votes
   can have changed.
   */
  lemma SubmissionsAreTracked(g: Gov.GovState, tx: TxBody, epoch: U64, i: nat)
    requires ApplyTxGovernance(g, tx, epoch).Some?
    ensures var after, n := ApplyTxGovernance(g, tx, epoch).value, |g.proposals|;
      && after == g.(proposals := after.proposals) && |after.proposals| == n + |tx.proposals|
      && (i < n ==> SameButVotes(g.proposals[i], after.proposals[i]))
      && (i < |tx.proposals| ==>
            var q := after.proposals[n + i];
            && q.actionId.txHash == tx.txId && q.actionId.index == i
            && q.deposit == tx.proposals[i].deposit && q.returnAddress == tx.proposals[i].returnAddress
            && q.proposedIn == epoch && q.expiresAfter == epoch + g.govActionLifetime)
  {
    hide CastAll;
    CastKeepsTerms(g.proposals + AsProposals(tx, epoch, SatAdd(epoch, g.govActionLifetime)), tx.ballots);
  }

  /**
   A transaction's votes come after its own submissions, so they count on those too: on
   every tracked proposal a voter's record is its last vote in the transaction, or else
   what it was before, and nothing on a new one.
   */
  lemma VotesFollowSubmissions(
    g: Gov.GovState, seen: set<Hash32>, tx: TxBody, epoch: U64, i: nat, role: Role, voter: Voter)
    requires Tidy(g.proposals) && From(g.proposals, seen) && tx.txId !in seen
    requires ApplyTxGovernance(g, tx, epoch).Some? && i < |ApplyTxGovernance(g, tx, epoch).value.proposals|
    ensures var after, n := ApplyTxGovernance(g, tx, epoch).value.proposals, |g.proposals|;
      if i < n then
        Recorded(after[i], role, voter)
        == LastVote(tx.ballots, g.proposals[i].actionId, role, voter, Recorded(g.proposals[i], role, voter))
      else
        Recorded(after[i], role, voter)
        == LastVote(tx.ballots, Gov.GovActionId(tx.txId, i - n), role, voter, None)
  {
    hide CastAll, LastVote, WellKept, Recorded;
    var expiresAfter := SatAdd(epoch, g.govActionLifetime);
    var start := g.proposals + AsProposals(tx, epoch, expiresAfter);
    SubmissionsAreTidy(g.proposals, seen, tx, epoch, expiresAfter);
    CastKeepsTerms(start, tx.ballots);
    StoreIsLastWriteWins(start, tx.ballots, i, role, voter);
    if i >= |g.proposals| {
      NothingRecorded(start[i], role, voter);
    }
  }

  lemma NothingRecorded(p: Gov.Proposal, role: Role, voter: Voter)
    requires p.committeeVotes == [] && p.drepVotes == [] && p.spoVotes == []
    ensures Recorded(p, role, voter) == None
  {
  }

  /** Without votes, submissions are refused exactly for want of an imported lifetime or of 64 bits for the expiry. */
  lemma GovernanceRefusedIff(g: Gov.GovState, tx: TxBody, epoch: U64)
    requires tx.ballots == []
    ensures ApplyTxGovernance(g, tx, epoch).None? <==>
              tx.proposals != [] && (g.govActionLifetime == 0 || epoch + g.govActionLifetime > U64_MAX)
  {
  }

  /** Every proposal was made by this epoch and expires one lifetime after it was made. */
  predicate Dated(gov: Option<Gov.GovState>, epoch: U64) {
    gov.Some? ==> AllDated(gov.value.proposals, gov.value.govActionLifetime, epoch)
  }

  predicate AllDated(ps: seq<Gov.Proposal>, lifetime: U64, epoch: U64) {
    forall i :: 0 <= i < |ps| ==> ps[i].proposedIn <= epoch && ps[i].expiresAfter == ps[i].proposedIn + lifetime
  }

  lemma {:induction false} BlockKeepsDated(g: Gov.GovState, txs: seq<TxBody>, invalid: set<nat>, epoch: U64)
    requires AllDated(g.proposals, g.govActionLifetime, epoch) && BlockGovernance(g, txs, invalid, epoch).Some?
    ensures var after := BlockGovernance(g, txs, invalid, epoch).value;
      after.govActionLifetime == g.govActionLifetime && AllDated(after.proposals, g.govActionLifetime, epoch)
  {
    hide ApplyTxGovernance;
    if txs != [] {
      var n := |txs| - 1;
      BlockKeepsDated(g, txs[..n], invalid, epoch);
      var before := BlockGovernance(g, txs[..n], invalid, epoch).value;
      if n !in invalid {
        TxKeepsDated(before, txs[n], epoch);
      }
    }
  }

  lemma TxKeepsDated(g: Gov.GovState, tx: TxBody, epoch: U64)
    requires AllDated(g.proposals, g.govActionLifetime, epoch) && ApplyTxGovernance(g, tx, epoch).Some?
    ensures var after := ApplyTxGovernance(g, tx, epoch).value;
      after.govActionLifetime == g.govActionLifetime && AllDated(after.proposals, g.govActionLifetime, epoch)
  {
    hide ApplyTxGovernance;
    SubmissionsAreTracked(g, tx, epoch, 0);
    var after, n := ApplyTxGovernance(g, tx, epoch).value, |g.proposals|;
    forall i | 0 <= i < |after.proposals|
      ensures after.proposals[i].proposedIn <= epoch
      ensures after.proposals[i].expiresAfter == after.proposals[i].proposedIn + g.govActionLifetime
    {
      SubmissionsAreTracked(g, tx, epoch, if i < n then i else i - n);
    }
  }

  lemma WithinKeepsDated(a: Accumulator, i: Runs.BlockInput)
    requires i.block.ConwayBlock? && WithinEpoch(a, i.block, i.ctx, i.resolver).Ok?
    requires Dated(a.gov, i.ctx.blockEpoch)
    ensures Dated(WithinEpoch(a, i.block, i.ctx, i.resolver).value.gov, i.ctx.blockEpoch)
  {
    hide Scan, BlockCerts, BlockGovernance, DecodeIndices, LenientIndices, WithdrawAll, AllDated;
    var before, lenient := CertAndGov(a.certState, a.gov), LenientIndices(i.block.invalidField);
    BlockCertsKeepProposals(before, i.block.txs, lenient, a.params.keyDeposit, CertEnv(a));
    var certs := BlockCerts(before, i.block.txs, lenient, a.params.keyDeposit, CertEnv(a)).value;
    if certs.gov.Some? {
      BlockKeepsDated(certs.gov.value, i.block.txs, Runs.InvalidOf(i), i.ctx.blockEpoch);
    }
  }

  lemma PruningKeepsDated(xs: seq<Gov.Proposal>, ys: seq<Gov.Proposal>, lifetime: U64, epoch: U64, later: U64)
    requires Subsequence(xs, ys) && AllDated(ys, lifetime, epoch) && epoch <= later
    ensures AllDated(xs, lifetime, later)
  {
    forall i | 0 <= i < |xs|
      ensures xs[i].proposedIn <= later && xs[i].expiresAfter == xs[i].proposedIn + lifetime
    {
      SubsequenceElement(xs, ys, i);
    }
  }

  lemma CrossKeepsDated(w: World, a: Accumulator, target: U64, ctx: Context)
    requires Prunes(w) && Cross(w, a, target, ctx).Ok?
    requires Dated(a.gov, a.epochState.epoch) && a.epochState.epoch <= target
    ensures Dated(Cross(w, a, target, ctx).value.acc.gov, target)
  {
    hide Cross, AllDated, Subsequence, Prunes;
    CrossReaps(w, a, target, ctx);
    CrossPrunes(w, a, target, ctx);
    if a.gov.Some? {
      PruningKeepsDated(ProposalsOf(Cross(w, a, target, ctx).value.acc.gov), a.gov.value.proposals,
                        a.gov.value.govActionLifetime, a.epochState.epoch, target);
    }
  }

  /** Every reachable accumulator's proposals are dated like that. */
  lemma {:induction false} RunKeepsDated(w: World, s: Accumulator, events: seq<Runs.Event>, a: Accumulator)
    requires Prunes(w) && Dated(s.gov, s.epochState.epoch) && Runs.Run(w, s, events) == Ok(a)
    ensures Dated(a.gov, a.epochState.epoch)
  {
    hide Cross, WithinEpoch, Prunes, Dated;
    if events != [] {
      var n := |events| - 1;
      var before := Runs.Run(w, s, events[..n]).value;
      RunKeepsDated(w, s, events[..n], before);
      match events[n]
      case Enter(ctx) =>
        CrossMovesOn(w, before, before.epochState.epoch + 1, ctx);
        CrossKeepsDated(w, before, before.epochState.epoch + 1, ctx);
      case Apply(i) =>
        Runs.WithinEffect(before, i);
        WithinKeepsDated(before, i);
    }
  }

  // What is removed.

  predicate Absent(ps: seq<Gov.Proposal>, id: Gov.GovActionId) {
    forall i :: 0 <= i < |ps| ==> ps[i].actionId != id
  }

  lemma {:induction false} BlockKeepsAbsent(
    g: Gov.GovState, seen: set<Hash32>, txs: seq<TxBody>, invalid: set<nat>, epoch: U64, id: Gov.GovActionId)
    requires Absent(g.proposals, id) && id.txHash in seen && FreshIds(seen, txs, invalid)
    requires BlockGovernance(g, txs, invalid, epoch).Some?
    ensures Absent(BlockGovernance(g, txs, invalid, epoch).value.proposals, id)
    ensures seen <= SeenAfter(seen, txs, invalid)
  {
    hide ApplyTxGovernance;
    if txs != [] {
      var n := |txs| - 1;
      BlockKeepsAbsent(g, seen, txs[..n], invalid, epoch, id);
      var before := BlockGovernance(g, txs[..n], invalid, epoch).value;
      if n !in invalid {
        TxKeepsAbsent(before, txs[n], epoch, id);
      }
    }
  }

  lemma TxKeepsAbsent(g: Gov.GovState, tx: TxBody, epoch: U64, id: Gov.GovActionId)
    requires Absent(g.proposals, id) && (tx.proposals != [] ==> tx.txId != id.txHash)
    requires ApplyTxGovernance(g, tx, epoch).Some?
    ensures Absent(ApplyTxGovernance(g, tx, epoch).value.proposals, id)
  {
    hide ApplyTxGovernance;
    SubmissionsAreTracked(g, tx, epoch, 0);
    var after, n := ApplyTxGovernance(g, tx, epoch).value, |g.proposals|;
    forall i | 0 <= i < |after.proposals|
      ensures after.proposals[i].actionId != id
    {
      SubmissionsAreTracked(g, tx, epoch, if i < n then i else i - n);
    }
  }

  lemma WithinKeepsAbsent(a: Accumulator, i: Runs.BlockInput, seen: set<Hash32>, id: Gov.GovActionId)
    requires i.block.ConwayBlock? && WithinEpoch(a, i.block, i.ctx, i.resolver).Ok?
    requires Absent(ProposalsOf(a.gov), id) && id.txHash in seen
    requires FreshIds(seen, i.block.txs, Runs.InvalidOf(i))
    ensures Absent(ProposalsOf(WithinEpoch(a, i.block, i.ctx, i.resolver).value.gov), id)
    ensures id.txHash in SeenAfter(seen, i.block.txs, Runs.InvalidOf(i))
  {
    hide Scan, BlockCerts, BlockGovernance, DecodeIndices, LenientIndices, WithdrawAll, FreshIds, SeenAfter;
    var before, lenient := CertAndGov(a.certState, a.gov), LenientIndices(i.block.invalidField);
    BlockCertsKeepProposals(before, i.block.txs, lenient, a.params.keyDeposit, CertEnv(a));
    var certs := BlockCerts(before, i.block.txs, lenient, a.params.keyDeposit, CertEnv(a)).value;
    if certs.gov.Some? {
      BlockKeepsAbsent(certs.gov.value, seen, i.block.txs, Runs.InvalidOf(i), i.ctx.blockEpoch, id);
    } else {
      SeenGrows(seen, i.block.txs, Runs.InvalidOf(i));
    }
  }

  lemma {:induction false} SeenGrows(seen: set<Hash32>, txs: seq<TxBody>, invalid: set<nat>)
    ensures seen <= SeenAfter(seen, txs, invalid)
  {
    if txs != [] {
      SeenGrows(seen, txs[..|txs| - 1], invalid);
    }
  }

  lemma {:induction false} RunKeepsAbsent(
    w: World, s: Accumulator, events: seq<Runs.Event>, seen: set<Hash32>, a: Accumulator, id: Gov.GovActionId)
    requires Prunes(w) && Runs.Run(w, s, events) == Ok(a) && FreshRun(seen, events)
    requires Absent(ProposalsOf(s.gov), id) && id.txHash in seen
    ensures Absent(ProposalsOf(a.gov), id) && id.txHash in SeenBy(seen, events)
  {
    hide Cross, WithinEpoch, Prunes, Absent, ProposalsOf, SeenAfter, FreshIds;
    if events != [] {
      var n := |events| - 1;
      var before := Runs.Run(w, s, events[..n]).value;
      RunKeepsAbsent(w, s, events[..n], seen, before, id);
      match events[n]
      case Enter(ctx) =>
        CrossPrunes(w, before, before.epochState.epoch + 1, ctx);
        PruningKeepsAbsent(ProposalsOf(a.gov), ProposalsOf(before.gov), id);
      case Apply(i) => WithinKeepsAbsent(before, i, SeenBy(seen, events[..n]), id);
    }
  }

  lemma PruningKeepsAbsent(xs: seq<Gov.Proposal>, ys: seq<Gov.Proposal>, id: Gov.GovActionId)
    requires Subsequence(xs, ys) && Absent(ys, id)
    ensures Absent(xs, id)
  {
    forall i | 0 <= i < |xs|
      ensures xs[i].actionId != id
    {
      SubsequenceElement(xs, ys, i);
    }
  }

  /**
   A proposal that governance leaves out at a boundary is gone, and stays gone through
   every later run in which transaction ids are fresh: no later boundary can expire it
   again or return its deposit twice.
   */
  lemma RemovedStaysRemoved(
    w: World, s: Accumulator, ctx: Context, b: Accumulator, events: seq<Runs.Event>, seen: set<Hash32>,
    a: Accumulator, id: Gov.GovActionId)
    requires Prunes(w) && Runs.Step(w, s, Runs.Enter(ctx)) == Ok(b) && Runs.Run(w, b, events) == Ok(a)
    requires FreshRun(seen, events) && id.txHash in seen
    requires s.gov.Some? && s.epochState.epoch < U64_MAX && Stage(w, s, s.epochState.epoch + 1).Ok?
    requires Decided(w, s, s.epochState.epoch + 1).Some?
    requires Absent(Decided(w, s, s.epochState.epoch + 1).value.proposals, id)
    ensures Absent(ProposalsOf(b.gov), id) && Absent(ProposalsOf(a.gov), id)
  {
    hide Cross, Runs.Run, Prunes, Absent, FreshRun, Stage, Decided;
    CrossInstallsPlan(w, s, s.epochState.epoch + 1, ctx);
    RunKeepsAbsent(w, b, events, seen, a, id);
  }
}
