/**
 Laws of the certificate and governance states, lifted to whole runs of the accumulator,
 where boundaries, rewards and blocks interleave.
 */
module RunLaws {
  import opened LedgerTypes
  import opened Certificates
  import opened CertificateLaws
  import opened EpochBoundary
  import opened AccumulatorCodecs
  import opened Votes
  import opened BlockScan
  import opened BlockEffects
  import opened CertHistory
  import opened Accumulator
  import Runs = AccumulatorRuns
  import Gov = GovernanceCerts

  // The certificates of a run.

  /** The certificates the walk sees in a block, in order. */
  function Flat(txs: seq<TxBody>, invalid: set<nat>): seq<ConwayCert> {
    if txs == [] then
      []
    else
      var n := |txs| - 1;
      Flat(txs[..n], invalid) + if n in invalid then [] else SeenCerts(txs[n])
  }

  function Walked(i: Runs.BlockInput): seq<ConwayCert> {
    if i.block.ConwayBlock? then Flat(i.block.txs, LenientIndices(i.block.invalidField)) else []
  }

  function CertsOf(events: seq<Runs.Event>): seq<ConwayCert> {
    if events == [] then
      []
    else
      CertsOf(events[..|events| - 1])
      + match events[|events| - 1] { case Apply(i) => Walked(i) case Enter(_) => [] }
  }

  lemma {:induction false} TxCertsAppend(
    s: CertAndGov, xs: seq<ConwayCert>, ys: seq<ConwayCert>, keyDeposit: Coin, env: Option<Gov.GovCertEnv>)
    ensures ApplyTxCerts(s, xs + ys, keyDeposit, env)
         == match ApplyTxCerts(s, xs, keyDeposit, env)
            case None => None
            case Some(s') => ApplyTxCerts(s', ys, keyDeposit, env)
    decreases |ys|
  {
    hide ApplyBoth;
    if ys == [] {
      assert xs + ys == xs;
    } else {
      TxCertsAppend(s, xs, ys[..|ys| - 1], keyDeposit, env);
      assert (xs + ys)[..|xs + ys| - 1] == xs + ys[..|ys| - 1];
    }
  }

  /** Walking a block is walking the one list of the certificates it shows. */
  lemma {:induction false} BlockCertsAreFlat(
    s: CertAndGov, txs: seq<TxBody>, invalid: set<nat>, keyDeposit: Coin, env: Option<Gov.GovCertEnv>)
    ensures BlockCerts(s, txs, invalid, keyDeposit, env) == ApplyTxCerts(s, Flat(txs, invalid), keyDeposit, env)
  {
    if txs != [] {
      var n := |txs| - 1;
      BlockCertsAreFlat(s, txs[..n], invalid, keyDeposit, env);
      hide ApplyTxCerts;
      if n in invalid {
        assert Flat(txs, invalid) == Flat(txs[..n], invalid);
      } else {
        TxCertsAppend(s, Flat(txs[..n], invalid), SeenCerts(txs[n]), keyDeposit, env);
      }
    }
  }

  // Stake delegations.

  ghost predicate NoneDelegates(certs: seq<ConwayCert>, c: Credential) {
    forall k :: 0 <= k < |certs| ==> !Delegates(ConwayStep(certs[k], 0), c)
  }

  lemma {:induction false} TxLeavesUndelegated(
    s: CertAndGov, certs: seq<ConwayCert>, keyDeposit: Coin, env: Option<Gov.GovCertEnv>, c: Credential)
    requires c !in s.cert.delegation.delegations && NoneDelegates(certs, c)
    requires ApplyTxCerts(s, certs, keyDeposit, env).Some?
    ensures c !in ApplyTxCerts(s, certs, keyDeposit, env).value.cert.delegation.delegations
  {
    hide ApplyConwayCert, Gov.ApplyGovCert;
    if certs != [] {
      var n := |certs| - 1;
      TxLeavesUndelegated(s, certs[..n], keyDeposit, env, c);
      var before := ApplyTxCerts(s, certs[..n], keyDeposit, env).value.cert;
      StepLeavesUndelegated(before, ConwayStep(certs[n], keyDeposit), c);
    }
  }

  /** The certificate walk of a block, as one list. */
  function CertsApplied(a: Accumulator, i: Runs.BlockInput): Option<CertAndGov> {
    ApplyTxCerts(CertAndGov(a.certState, a.gov), Walked(i), a.params.keyDeposit, CertEnv(a))
  }

  /** A block's certificates decide its certificate state up to balances, and its governance state up to proposals. */
  lemma WithinAppliesCerts(a: Accumulator, i: Runs.BlockInput)
    requires i.block.ConwayBlock? && WithinEpoch(a, i.block, i.ctx, i.resolver).Ok?
    ensures CertsApplied(a, i).Some?
    ensures var after, applied := WithinEpoch(a, i.block, i.ctx, i.resolver).value, CertsApplied(a, i).value;
      && after.certState == WithRewards(applied.cert, after.certState.delegation.rewards)
      && SameButProposals(applied.gov, after.gov)
      && after.params == a.params && after.drepActivity == a.drepActivity
      && after.epochState.epoch == a.epochState.epoch
  {
    hide Scan, BlockCerts, ApplyTxCerts, BlockGovernance, DecodeIndices, LenientIndices, WithdrawAll, Flat;
    var before, lenient := CertAndGov(a.certState, a.gov), LenientIndices(i.block.invalidField);
    BlockCertsAreFlat(before, i.block.txs, lenient, a.params.keyDeposit, CertEnv(a));
    var certs := CertsApplied(a, i).value;
    var indices := DecodeIndices(i.block.invalidField, |i.block.txs|).value;
    Runs.WithdrawalsKeepTheRest(certs.cert, Scan(i.block.txs, Elements(indices), i.resolver).value.withdrawals);
    if certs.gov.Some? {
      GovernanceKeepsDelegations(certs.gov.value, i.block.txs, Elements(indices), i.ctx.blockEpoch);
    }
  }

  predicate SameButProposals(before: Option<Gov.GovState>, after: Option<Gov.GovState>) {
    if before.None? then after.None?
    else after.Some? && after.value == before.value.(proposals := after.value.proposals)
  }

  lemma BoundaryReaps(i: BoundaryInput, target: U64)
    requires Boundary(i, target).Ok?
    ensures var after := Boundary(i, target).value.certState;
      after == WithRewards(Reap(i.certState, target), after.delegation.rewards)
  {
    hide Reap;
  }

  /** A crossing reaps the certificate state and, but for balances and proposals, does nothing else to either state. */
  lemma CrossReaps(w: World, a: Accumulator, target: U64, ctx: Context)
    requires Cross(w, a, target, ctx).Ok?
    ensures var after := Cross(w, a, target, ctx).value.acc;
      && after.certState == WithRewards(Reap(a.certState, target), after.certState.delegation.rewards)
      && SameButProposals(a.gov, after.gov)
      && after.params == a.params && after.drepActivity == a.drepActivity && after.epochState.epoch == target
  {
    hide Cross, Stage, Boundary, BoundaryInputFor, Prepare, Reap;
    CrossIsPrepared(w, a, target, ctx);
    Runs.StageEffect(w, a, target);
    Runs.CrossKeepsParams(w, a, target, ctx);
    CrossMovesOn(w, a, target, ctx);
    var p := Prepare(w, a, target, ctx).value;
    PreparedInput(w, p.staged, target, ctx.boundaryMark.value, ctx.activeSlots);
    BoundaryReaps(p.input, target);
    ReapIgnoresRewards(a.certState, p.input.certState, target);
  }

  lemma PreparedInput(w: World, st: Staged, target: U64, base: map<Credential, Coin>, activeSlots: U64)
    requires BoundaryInputFor(w, st, target, base, activeSlots).Some?
    ensures BoundaryInputFor(w, st, target, base, activeSlots).value.0.certState == st.acc.certState
    ensures PlanFor(w, st.acc, target) == Some(BoundaryInputFor(w, st, target, base, activeSlots).value.1)
  {
  }

  lemma ReapIgnoresRewards(s: CertState, t: CertState, epoch: U64)
    requires t == WithRewards(s, t.delegation.rewards)
    ensures Reap(t, epoch) == WithRewards(Reap(s, epoch), t.delegation.rewards)
  {
  }

  lemma ReapOnlyRemoves(s: CertState, epoch: U64, c: Credential)
    ensures c in Reap(s, epoch).delegation.delegations ==>
              c in s.delegation.delegations && s.delegation.delegations[c] !in DuePools(s, epoch)
  {
  }

  /** Whoever is undelegated stays so through any run, until a certificate the walk sees delegates them. */
  lemma {:induction false} RunLeavesUndelegated(
    w: World, s: Accumulator, events: seq<Runs.Event>, a: Accumulator, c: Credential)
    requires c !in s.certState.delegation.delegations && Runs.Run(w, s, events) == Ok(a)
    requires NoneDelegates(CertsOf(events), c)
    ensures c !in a.certState.delegation.delegations
  {
    hide Cross, WithinEpoch, ApplyTxCerts, Delegates, Reap, Walked;
    if events != [] {
      var n := |events| - 1;
      var before := Runs.Run(w, s, events[..n]).value;
      NoneDelegatesInParts(CertsOf(events[..n]), CertsOf(events)[|CertsOf(events[..n])|..], c);
      RunLeavesUndelegated(w, s, events[..n], before, c);
      match events[n]
      case Enter(ctx) =>
        CrossReaps(w, before, before.epochState.epoch + 1, ctx);
        ReapOnlyRemoves(before.certState, before.epochState.epoch + 1, c);
      case Apply(i) =>
        WithinAppliesCerts(before, i);
        TxLeavesUndelegated(CertAndGov(before.certState, before.gov), Walked(i), before.params.keyDeposit,
                            CertEnv(before), c);
    }
  }

  lemma NoneDelegatesInParts(xs: seq<ConwayCert>, ys: seq<ConwayCert>, c: Credential)
    ensures NoneDelegates(xs + ys, c) ==> NoneDelegates(xs, c) && NoneDelegates(ys, c)
  {
    hide Delegates;
    assert forall k :: 0 <= k < |xs| ==> xs[k] == (xs + ys)[k];
    assert forall k :: 0 <= k < |ys| ==> ys[k] == (xs + ys)[|xs| + k];
  }

  /** The delegators of a pool reaped at a boundary stay undelegated from there on, the same way. */
  lemma ReapedStayUndelegated(
    w: World, s: Accumulator, ctx: Context, b: Accumulator, events: seq<Runs.Event>, a: Accumulator, c: Credential)
    requires Runs.Step(w, s, Runs.Enter(ctx)) == Ok(b) && Runs.Run(w, b, events) == Ok(a)
    requires c in s.certState.delegation.delegations && s.epochState.epoch < U64_MAX
    requires s.certState.delegation.delegations[c] in DuePools(s.certState, s.epochState.epoch + 1)
    requires NoneDelegates(CertsOf(events), c)
    ensures c !in a.certState.delegation.delegations
  {
    hide Cross, Runs.Run, NoneDelegates, CertsOf, Reap, DuePools;
    CrossReaps(w, s, s.epochState.epoch + 1, ctx);
    ReapOnlyRemoves(s.certState, s.epochState.epoch + 1, c);
    RunLeavesUndelegated(w, b, events, a, c);
  }

  // Vote delegations.

  function VotesOf(gov: Option<Gov.GovState>): map<Credential, DRep> {
    if gov.Some? then gov.value.voteDelegations else map[]
  }

  function VoteOf(gov: Option<Gov.GovState>, c: Credential): Option<DRep> {
    if c in VotesOf(gov) then Some(VotesOf(gov)[c]) else None
  }

  /** The certificate unregisters the account `c`, or the DRep it delegates to. */
  predicate Clears(cert: ConwayCert, c: Credential, d: DRep) {
    || Gov.UnregistersAccount(cert, c)
    || (cert.DRepUnregistration? && Gov.DRepCredential(d) == Some(cert.drepCredential))
  }

  /** What one account's vote delegation becomes: set by the last request for it, dropped when cleared. */
  function VoteAfter(before: Option<DRep>, certs: seq<ConwayCert>, c: Credential): Option<DRep> {
    if certs == [] then
      before
    else
      var held := VoteAfter(before, certs[..|certs| - 1], c);
      var cert := certs[|certs| - 1];
      match Gov.VoteTarget(cert)
      case Some((k, d)) => if k == c then Some(d) else held
      case None => if held.Some? && Clears(cert, c, held.value) then None else held
  }

  lemma GovCertVotes(g: Gov.GovState, cert: ConwayCert, env: Option<Gov.GovCertEnv>, c: Credential)
    requires Gov.ApplyGovCert(g, cert, env).Ok?
    ensures VoteOf(Some(Gov.ApplyGovCert(g, cert, env).value), c) == VoteAfter(VoteOf(Some(g), c), [cert], c)
  {
  }

  lemma {:induction false} VoteAfterAppend(
    before: Option<DRep>, xs: seq<ConwayCert>, ys: seq<ConwayCert>, c: Credential)
    ensures VoteAfter(before, xs + ys, c) == VoteAfter(VoteAfter(before, xs, c), ys, c)
    decreases |ys|
  {
    if ys == [] {
      assert xs + ys == xs;
    } else {
      VoteAfterAppend(before, xs, ys[..|ys| - 1], c);
      assert (xs + ys)[..|xs + ys| - 1] == xs + ys[..|ys| - 1];
    }
  }

  lemma {:induction false} TxVotes(
    s: CertAndGov, certs: seq<ConwayCert>, keyDeposit: Coin, env: Option<Gov.GovCertEnv>, c: Credential)
    requires ApplyTxCerts(s, certs, keyDeposit, env).Some?
    ensures var after := ApplyTxCerts(s, certs, keyDeposit, env).value.gov;
      after.Some? == s.gov.Some? && (s.gov.Some? ==> VoteOf(after, c) == VoteAfter(VoteOf(s.gov, c), certs, c))
  {
    hide ApplyConwayCert, Gov.ApplyGovCert, Gov.VoteTarget, VoteOf;
    if certs != [] {
      var n := |certs| - 1;
      TxVotes(s, certs[..n], keyDeposit, env, c);
      var before := ApplyTxCerts(s, certs[..n], keyDeposit, env).value;
      if before.gov.Some? {
        GovCertVotes(before.gov.value, certs[n], env, c);
        VoteAfterAppend(VoteOf(s.gov, c), certs[..n], [certs[n]], c);
        assert certs[..n] + [certs[n]] == certs;
      }
    }
  }

  /**
   While governance is tracked, every account's vote delegation after a run is what the
   run's certificates alone make of the one before it: no boundary, reward, proposal or
   vote interferes.
   */
  lemma {:induction false} RunReplaysVotes(
    w: World, s: Accumulator, events: seq<Runs.Event>, a: Accumulator, c: Credential)
    requires Runs.Run(w, s, events) == Ok(a)
    ensures a.gov.Some? == s.gov.Some?
    ensures VoteOf(a.gov, c) == if s.gov.Some? then VoteAfter(VoteOf(s.gov, c), CertsOf(events), c) else None
  {
    hide Cross, WithinEpoch, ApplyTxCerts, VoteAfter, Walked;
    if events == [] {
      NothingClears(VoteOf(s.gov, c), c);
    } else {
      var n := |events| - 1;
      var before := Runs.Run(w, s, events[..n]).value;
      RunReplaysVotes(w, s, events[..n], before, c);
      match events[n]
      case Enter(ctx) =>
        CrossReaps(w, before, before.epochState.epoch + 1, ctx);
        assert CertsOf(events) == CertsOf(events[..n]);
      case Apply(i) =>
        WithinAppliesCerts(before, i);
        TxVotes(CertAndGov(before.certState, before.gov), Walked(i), before.params.keyDeposit, CertEnv(before), c);
        VoteAfterAppend(VoteOf(s.gov, c), CertsOf(events[..n]), Walked(i), c);
    }
  }

  lemma NothingClears(before: Option<DRep>, c: Credential)
    ensures VoteAfter(before, [], c) == before
  {
  }

  ghost predicate AskedAfter(certs: seq<ConwayCert>, k: nat, c: Credential, d: DRep) {
    exists j :: k < j < |certs| && Gov.VoteTarget(certs[j]) == Some((c, d))
  }

  lemma {:induction false} ClearedUntilAsked(
    before: Option<DRep>, certs: seq<ConwayCert>, k: nat, c: Credential, d: DRep)
    requires k < |certs| && Clears(certs[k], c, d) && VoteAfter(before, certs, c) == Some(d)
    ensures AskedAfter(certs, k, c, d)
  {
    var n := |certs| - 1;
    if Gov.VoteTarget(certs[n]) == Some((c, d)) {
      assert n != k;
    } else {
      assert VoteAfter(before, certs[..n], c) == Some(d);
      ClearedUntilAsked(before, certs[..n], k, c, d);
      var j :| k < j < n && Gov.VoteTarget(certs[..n][j]) == Some((c, d));
      assert certs[j] == certs[..n][j];
    }
  }

  /**
   Over a whole run, with its boundaries, rewards and blocks: once an account unregisters,
   or the DRep it delegates to does, a delegation to that DRep is in force again only
   because a later certificate of the run asked for it.
   */
  lemma RunBringsNoVoteBack(
    w: World, s: Accumulator, events: seq<Runs.Event>, a: Accumulator, k: nat, c: Credential, d: DRep)
    requires Runs.Run(w, s, events) == Ok(a) && VoteOf(a.gov, c) == Some(d)
    requires k < |CertsOf(events)| && Clears(CertsOf(events)[k], c, d)
    ensures AskedAfter(CertsOf(events), k, c, d)
  {
    hide Runs.Run, CertsOf, Clears;
    RunReplaysVotes(w, s, events, a, c);
    ClearedUntilAsked(VoteOf(s.gov, c), CertsOf(events), k, c, d);
  }

  // The whole history.

  /** The epoch after some events. */
  function EpochAt(from: U64, events: seq<Runs.Event>): U64 {
    if events == [] then
      from
    else
      var before := EpochAt(from, events[..|events| - 1]);
      if events[|events| - 1].Enter? then SatAdd(before, 1) else before
  }

  /** The certificates and boundaries of a run, in order, with their epochs. */
  function MovesOf(from: U64, events: seq<Runs.Event>): seq<Move> {
    if events == [] then
      []
    else
      var init := events[..|events| - 1];
      MovesOf(from, init)
      + match events[|events| - 1] {
          case Enter(_) => [Entered(EpochAt(from, events))]
          case Apply(i) => AllDid(Walked(i), EpochAt(from, init))
        }
  }

  function TermsOf(s: Accumulator): Terms {
    Terms(s.params.keyDeposit, s.drepActivity)
  }

  function States(a: Accumulator): CertAndGov {
    CertAndGov(a.certState, a.gov)
  }

  lemma TellsAlike(s: CertAndGov, terms: Terms, moves: seq<Move>, t: CertAndGov, u: CertAndGov)
    requires Tells(s, terms, moves, t)
    requires u.cert == WithRewards(t.cert, u.cert.delegation.rewards) && SameButProposals(t.gov, u.gov)
    ensures Tells(s, terms, moves, u)
  {
    forall c
      ensures TellsDeposit(s.cert, terms, moves, u.cert, c) && TellsStake(s.cert, moves, u.cert, c)
    {
      assert TellsDeposit(s.cert, terms, moves, t.cert, c) && TellsStake(s.cert, moves, t.cert, c);
    }
    forall p
      ensures TellsPool(s.cert, moves, u.cert, p)
    {
      assert TellsPool(s.cert, moves, t.cert, p);
    }
    if s.gov.Some? {
      forall d
        ensures TellsDRep(s.gov.value, terms, moves, u.gov.value, d)
        ensures TellsHotKey(s.gov.value, moves, u.gov.value, d)
      {
        assert TellsDRep(s.gov.value, terms, moves, t.gov.value, d);
        assert TellsHotKey(s.gov.value, moves, t.gov.value, d);
      }
    }
  }

  lemma CrossTells(s: CertAndGov, terms: Terms, moves: seq<Move>, w: World, a: Accumulator, target: U64, ctx: Context)
    requires Cross(w, a, target, ctx).Ok? && Tells(s, terms, moves, States(a))
    ensures Tells(s, terms, moves + [Entered(target)], States(Cross(w, a, target, ctx).value.acc))
  {
    hide Cross, Reap, TellsCert, TellsGov;
    CrossReaps(w, a, target, ctx);
    var reaped := CertAndGov(Reap(a.certState, target), a.gov);
    ReapTells(s.cert, terms, moves, a.certState, target);
    if s.gov.Some? {
      EnteringTells(s.gov.value, terms, moves, a.gov.value, target);
    }
    TellsAlike(s, terms, moves + [Entered(target)], reaped, States(Cross(w, a, target, ctx).value.acc));
  }

  lemma WithinTells(s: CertAndGov, terms: Terms, moves: seq<Move>, a: Accumulator, i: Runs.BlockInput)
    requires i.block.ConwayBlock? && WithinEpoch(a, i.block, i.ctx, i.resolver).Ok?
    requires terms == TermsOf(a) && Tells(s, terms, moves, States(a))
    ensures Tells(s, terms, moves + AllDid(Walked(i), a.epochState.epoch),
                  States(WithinEpoch(a, i.block, i.ctx, i.resolver).value))
  {
    hide WithinEpoch, ApplyTxCerts, Walked, Tells;
    WithinAppliesCerts(a, i);
    assert CertEnv(a) == EnvAt(terms, a.epochState.epoch);
    ListTells(s, terms, moves, States(a), Walked(i), a.epochState.epoch);
    TellsAlike(s, terms, moves + AllDid(Walked(i), a.epochState.epoch), CertsApplied(a, i).value,
               States(WithinEpoch(a, i.block, i.ctx, i.resolver).value));
  }

  /**
   After any run, every account's deposit and pool, every pool's activity and retirement,
   every DRep's expiry and every committee hot key are what the certificates the walk saw
   and the boundaries crossed say, and nothing else has touched them.
   */
  lemma {:induction false} RunTells(w: World, s: Accumulator, events: seq<Runs.Event>, a: Accumulator)
    requires Runs.Run(w, s, events) == Ok(a)
    ensures a.epochState.epoch == EpochAt(s.epochState.epoch, events) && TermsOf(a) == TermsOf(s)
    ensures Tells(States(s), TermsOf(s), MovesOf(s.epochState.epoch, events), States(a))
  {
    hide Cross, WithinEpoch, Tells, Walked, AllDid, ApplyTxCerts;
    var from := s.epochState.epoch;
    if events == [] {
      NothingToTell(States(s), TermsOf(s));
    } else {
      var n := |events| - 1;
      var before := Runs.Run(w, s, events[..n]).value;
      RunTells(w, s, events[..n], before);
      match events[n]
      case Enter(ctx) =>
        CrossReaps(w, before, before.epochState.epoch + 1, ctx);
        CrossTells(States(s), TermsOf(s), MovesOf(from, events[..n]), w, before, before.epochState.epoch + 1, ctx);
      case Apply(i) =>
        WithinAppliesCerts(before, i);
        WithinTells(States(s), TermsOf(s), MovesOf(from, events[..n]), before, i);
    }
  }

  /**
   In particular an account's stake is with the pool of the last certificate that delegates
   it, unless the account has been unregistered or that pool reaped since.
   */
  lemma RunReplaysStake(w: World, s: Accumulator, events: seq<Runs.Event>, a: Accumulator, c: Credential)
    requires Runs.Run(w, s, events) == Ok(a)
    ensures Get(a.certState.delegation.delegations, c)
         == PoolAfter(s.certState, MovesOf(s.epochState.epoch, events), c)
  {
    hide Runs.Run, MovesOf, PoolAfter;
    RunTells(w, s, events, a);
    assert TellsStake(s.certState, MovesOf(s.epochState.epoch, events), a.certState, c);
  }

  // A block's own accounts.

  /** A certificate registers or unregisters the account `c`. */
  predicate Opens(cert: ConwayCert, c: Credential) {
    || (Registers(cert, 0).Some? && Registers(cert, 0).value.0 == c)
    || Gov.UnregistersAccount(cert, c)
  }

  predicate AnyOpens(certs: seq<ConwayCert>, c: Credential) {
    exists k :: 0 <= k < |certs| && Opens(certs[k], c)
  }

  lemma CertBalance(s: CertState, cert: ConwayCert, keyDeposit: Coin, c: Credential)
    requires ApplyConwayCert(s, cert, keyDeposit).Ok?
    ensures GetOr(ApplyConwayCert(s, cert, keyDeposit).value.delegation.rewards, c)
         == if Opens(cert, c) then 0 else GetOr(s.delegation.rewards, c)
  {
  }

  lemma {:induction false} CertsBalance(
    s: CertAndGov, certs: seq<ConwayCert>, keyDeposit: Coin, env: Option<Gov.GovCertEnv>, c: Credential)
    requires ApplyTxCerts(s, certs, keyDeposit, env).Some?
    ensures GetOr(ApplyTxCerts(s, certs, keyDeposit, env).value.cert.delegation.rewards, c)
         == if AnyOpens(certs, c) then 0 else GetOr(s.cert.delegation.rewards, c)
  {
    hide ApplyConwayCert, Gov.ApplyGovCert, Opens;
    if certs != [] {
      var n := |certs| - 1;
      CertsBalance(s, certs[..n], keyDeposit, env, c);
      CertBalance(ApplyTxCerts(s, certs[..n], keyDeposit, env).value.cert, certs[n], keyDeposit, c);
      assert AnyOpens(certs, c) <==> AnyOpens(certs[..n], c) || Opens(certs[n], c) by {
        assert certs == certs[..n] + [certs[n]];
        OpensInParts(certs[..n], certs[n], c);
      }
    }
  }

  lemma OpensInParts(certs: seq<ConwayCert>, cert: ConwayCert, c: Credential)
    ensures AnyOpens(certs + [cert], c) <==> AnyOpens(certs, c) || Opens(cert, c)
  {
    hide Opens;
    var all := certs + [cert];
    if k :| 0 <= k < |certs| && Opens(certs[k], c) {
      assert all[k] == certs[k];
    }
    if Opens(cert, c) {
      assert all[|certs|] == cert;
    }
  }

  lemma {:induction false} WithdrawalsEmpty(s: CertState, creds: seq<Credential>, c: Credential)
    ensures GetOr(WithdrawAll(s, creds).delegation.rewards, c)
         == if c in creds then 0 else GetOr(s.delegation.rewards, c)
  {
    if creds != [] {
      var n := |creds| - 1;
      WithdrawalsEmpty(s, creds[..n], c);
      assert creds == creds[..n] + [creds[n]];
    }
  }

  /**
   What a block does besides fees, issuer counts and certificates: it empties the accounts
   its kept transactions withdraw from or its certificates open or close, leaves every
   other balance and both pots alone, and adds its kept donations.
   */
  lemma AccountAfterBlock(a: Accumulator, i: Runs.BlockInput, c: Credential)
    requires i.block.ConwayBlock? && WithinEpoch(a, i.block, i.ctx, i.resolver).Ok?
    ensures var after, kept := WithinEpoch(a, i.block, i.ctx, i.resolver).value, Kept(i.block.txs, Runs.InvalidOf(i));
      && GetOr(after.certState.delegation.rewards, c)
         == (if AnyOpens(Walked(i), c) || c in BlockScan.Withdrawn(kept) then 0
             else GetOr(a.certState.delegation.rewards, c))
      && after.epochState.reserves == a.epochState.reserves && after.epochState.treasury == a.epochState.treasury
      && after.epochState.donationPot == a.epochState.donationPot + Donated(kept)
      && after.epochState.slot == i.ctx.blockSlot
  {
    hide Scan, BlockCerts, ApplyTxCerts, BlockGovernance, DecodeIndices, LenientIndices, WithdrawAll, Flat;
    hide AnyOpens, Kept, DeclaredFees, ForfeitedCollateral, Donated, BlockScan.Withdrawn;
    var before, lenient := CertAndGov(a.certState, a.gov), LenientIndices(i.block.invalidField);
    BlockCertsAreFlat(before, i.block.txs, lenient, a.params.keyDeposit, CertEnv(a));
    var certs := CertsApplied(a, i).value;
    CertsBalance(before, Walked(i), a.params.keyDeposit, CertEnv(a), c);
    ScanSplitsByValidity(i.block.txs, Runs.InvalidOf(i), i.resolver);
    WithdrawalsEmpty(certs.cert, BlockScan.Withdrawn(Kept(i.block.txs, Runs.InvalidOf(i))), c);
  }
}
