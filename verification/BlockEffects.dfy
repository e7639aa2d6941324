/**
 The certificate and governance walks over a block's transactions
 (crates/ade_ledger/src/rules.rs, crates/ade_ledger/src/epoch_accumulator.rs): both
 skip what phase-2 validation discarded.
 */
module BlockEffects {
  import opened LedgerTypes
  import opened Certificates
  import opened CertificateLaws
  import Gov = GovernanceCerts
  import opened Votes
  import opened BlockScan

  /** A walk that applies one step a kept transaction and stops at the first refusal. */
  function Walk<S>(s: S, txs: seq<TxBody>, invalid: set<nat>, step: (S, TxBody) -> Option<S>): Option<S> {
    if txs == [] then
      Some(s)
    else
      var n := |txs| - 1;
      match Walk(s, txs[..n], invalid, step)
      case None => None
      case Some(s') => if n in invalid then Some(s') else step(s', txs[n])
  }

  /** Walking past the discarded transactions is walking the block without them. */
  lemma {:induction false} WalkSkipsInvalid<S>(
    s: S, txs: seq<TxBody>, invalid: set<nat>, step: (S, TxBody) -> Option<S>)
    ensures Walk(s, txs, invalid, step) == Walk(s, Kept(txs, invalid), {}, step)
  {
    if txs != [] {
      var n := |txs| - 1;
      WalkSkipsInvalid(s, txs[..n], invalid, step);
      var before := Kept(txs[..n], invalid);
      if n in invalid {
        assert Kept(txs, invalid) == before;
      } else {
        assert Kept(txs, invalid) == before + [txs[n]];
        assert (before + [txs[n]])[..|before|] == before;
      }
    }
  }

  // Certificates.

  datatype CertAndGov = CertAndGov(cert: CertState, gov: Option<Gov.GovState>)

  /** Each certificate moves the certificate state and, when governance is tracked, the governance state. */
  function ApplyBoth(
    s: CertAndGov, cert: ConwayCert, keyDeposit: Coin, env: Option<Gov.GovCertEnv>): Option<CertAndGov>
  {
    match ApplyConwayCert(s.cert, cert, keyDeposit)
    case Err(_) => None
    case Ok(c) =>
      match s.gov
      case None => Some(CertAndGov(c, None))
      case Some(g) =>
        match Gov.ApplyGovCert(g, cert, env)
        case Err(_) => None
        case Ok(g') => Some(CertAndGov(c, Some(g')))
  }

  function ApplyTxCerts(
    s: CertAndGov, certs: seq<ConwayCert>, keyDeposit: Coin, env: Option<Gov.GovCertEnv>): Option<CertAndGov>
  {
    if certs == [] then
      Some(s)
    else
      match ApplyTxCerts(s, certs[..|certs| - 1], keyDeposit, env)
      case None => None
      case Some(s') => ApplyBoth(s', certs[|certs| - 1], keyDeposit, env)
  }

  /** The certificate walk passes over a body whose map has indefinite length. */
  function SeenCerts(tx: TxBody): seq<ConwayCert> {
    if tx.indefinite then [] else tx.certs
  }

  function CertStep(keyDeposit: Coin, env: Option<Gov.GovCertEnv>): (CertAndGov, TxBody) -> Option<CertAndGov> {
    (s: CertAndGov, tx: TxBody) => ApplyTxCerts(s, SeenCerts(tx), keyDeposit, env)
  }

  function BlockCerts(
    s: CertAndGov, txs: seq<TxBody>, invalid: set<nat>, keyDeposit: Coin, env: Option<Gov.GovCertEnv>):
    Option<CertAndGov>
  {
    Walk(s, txs, invalid, CertStep(keyDeposit, env))
  }

  /** `accumulate_tx_certs`, one certificate after another. */
  method AccumulateTxCerts(
    s: CertAndGov, certs: seq<ConwayCert>, keyDeposit: Coin, env: Option<Gov.GovCertEnv>)
    returns (r: Option<CertAndGov>)
    ensures r == ApplyTxCerts(s, certs, keyDeposit, env)
  {
    r := Some(s);
    for n := 0 to |certs|
      invariant r == ApplyTxCerts(s, certs[..n], keyDeposit, env)
    {
      assert certs[..n + 1][..n] == certs[..n];
      if r.Some? {
        r := ApplyBoth(r.value, certs[n], keyDeposit, env);
      }
    }
    assert certs[..|certs|] == certs;
  }

  /** The certificate walk over a block. */
  method CollectBlockCerts(
    s: CertAndGov, txs: seq<TxBody>, invalid: set<nat>, keyDeposit: Coin, env: Option<Gov.GovCertEnv>)
    returns (r: Option<CertAndGov>)
    ensures r == BlockCerts(s, txs, invalid, keyDeposit, env)
  {
    hide ApplyTxCerts;
    r := Some(s);
    for n := 0 to |txs|
      invariant r == BlockCerts(s, txs[..n], invalid, keyDeposit, env)
    {
      assert txs[..n + 1][..n] == txs[..n] && txs[..n + 1][n] == txs[n];
      if r.Some? && n !in invalid {
        assert CertStep(keyDeposit, env)(r.value, txs[n]) == ApplyTxCerts(r.value, SeenCerts(txs[n]), keyDeposit, env);
        r := AccumulateTxCerts(r.value, SeenCerts(txs[n]), keyDeposit, env);
      }
    }
    assert txs[..|txs|] == txs;
  }

  ghost predicate SoundPair(s: CertAndGov) {
    Coherent(s.cert) && (s.gov.Some? ==> Gov.NoDanglingVotes(s.gov.value))
  }

  lemma {:induction false} TxCertsKeepSound(
    s: CertAndGov, certs: seq<ConwayCert>, keyDeposit: Coin, env: Option<Gov.GovCertEnv>)
    requires SoundPair(s)
    ensures ApplyTxCerts(s, certs, keyDeposit, env).Some? ==> SoundPair(ApplyTxCerts(s, certs, keyDeposit, env).value)
  {
    hide Coherent, ApplyConwayCert, Gov.NoDanglingVotes, Gov.ApplyGovCert;
    if certs != [] {
      var n := |certs| - 1;
      TxCertsKeepSound(s, certs[..n], keyDeposit, env);
      var before := ApplyTxCerts(s, certs[..n], keyDeposit, env);
      if before.Some? {
        ConwayCertKeepsCoherent(before.value.cert, certs[n], keyDeposit);
        if before.value.gov.Some? {
          GovCertKeepsVotes(before.value.gov.value, certs[n], env);
        }
      }
    }
  }

  lemma GovCertKeepsVotes(g: Gov.GovState, cert: ConwayCert, env: Option<Gov.GovCertEnv>)
    requires Gov.NoDanglingVotes(g)
    ensures Gov.ApplyGovCert(g, cert, env).Ok? ==> Gov.NoDanglingVotes(Gov.ApplyGovCert(g, cert, env).value)
  {
  }

  lemma {:induction false} BlockCertsKeepSound(
    s: CertAndGov, txs: seq<TxBody>, invalid: set<nat>, keyDeposit: Coin, env: Option<Gov.GovCertEnv>)
    requires SoundPair(s)
    ensures BlockCerts(s, txs, invalid, keyDeposit, env).Some? ==>
              SoundPair(BlockCerts(s, txs, invalid, keyDeposit, env).value)
  {
    if txs != [] {
      var n := |txs| - 1;
      BlockCertsKeepSound(s, txs[..n], invalid, keyDeposit, env);
      var before := BlockCerts(s, txs[..n], invalid, keyDeposit, env);
      if before.Some? {
        TxCertsKeepSound(before.value, SeenCerts(txs[n]), keyDeposit, env);
      }
    }
  }

  // Proposals and votes.

  function AsProposal(id: Hash32, i: nat, p: Submitted, epoch: U64, expiresAfter: U64): Gov.Proposal {
    Gov.Proposal(Gov.GovActionId(id, i), [], [], [], p.deposit, p.returnAddress, epoch, expiresAfter)
  }

  function AsProposals(tx: TxBody, epoch: U64, expiresAfter: U64): seq<Gov.Proposal> {
    seq(|tx.proposals|, i requires 0 <= i < |tx.proposals| =>
      AsProposal(tx.txId, i, tx.proposals[i], epoch, expiresAfter))
  }

  /** Submissions need an imported lifetime and an expiry that fits; votes come after them. */
  function ApplyTxGovernance(g: Gov.GovState, tx: TxBody, epoch: U64): Option<Gov.GovState> {
    if tx.proposals != [] && (g.govActionLifetime == 0 || CheckedAdd(epoch, g.govActionLifetime).None?) then
      None
    else
      match CastAll(g.proposals + AsProposals(tx, epoch, SatAdd(epoch, g.govActionLifetime)), tx.ballots)
      case None => None
      case Some(ps) => Some(g.(proposals := ps))
  }

  lemma {:induction false} CastRefusalIsFinal(ps: seq<Gov.Proposal>, ballots: seq<Ballot>, n: nat)
    requires n <= |ballots| && CastAll(ps, ballots[..n]).None?
    ensures CastAll(ps, ballots).None?
    decreases |ballots|
  {
    hide Cast;
    if n == |ballots| {
      assert ballots[..n] == ballots;
    } else {
      var shorter := ballots[..|ballots| - 1];
      assert shorter[..n] == ballots[..n];
      CastRefusalIsFinal(ps, shorter, n);
    }
  }

  /** One transaction's governance fields: its submissions, then its votes, on the store held in place. */
  method ApplyGovernanceFields(g: Gov.GovState, tx: TxBody, epoch: U64) returns (r: Option<Gov.GovState>)
    ensures r == ApplyTxGovernance(g, tx, epoch)
  {
    hide Cast;
    if tx.proposals != [] && (g.govActionLifetime == 0 || CheckedAdd(epoch, g.govActionLifetime).None?) {
      return None;
    }
    var start := g.proposals + AsProposals(tx, epoch, SatAdd(epoch, g.govActionLifetime));
    var store := new VoteStore(start);
    for n := 0 to |tx.ballots|
      invariant CastAll(start, tx.ballots[..n]) == Some(store.proposals)
    {
      assert tx.ballots[..n + 1][..n] == tx.ballots[..n];
      var ok := store.ApplyOneVote(tx.ballots[n]);
      if !ok {
        CastRefusalIsFinal(start, tx.ballots, n + 1);
        return None;
      }
    }
    assert tx.ballots[..|tx.ballots|] == tx.ballots;
    return Some(g.(proposals := store.proposals));
  }

  function GovStep(epoch: U64): (Gov.GovState, TxBody) -> Option<Gov.GovState> {
    (g: Gov.GovState, tx: TxBody) => ApplyTxGovernance(g, tx, epoch)
  }

  function BlockGovernance(g: Gov.GovState, txs: seq<TxBody>, invalid: set<nat>, epoch: U64): Option<Gov.GovState> {
    Walk(g, txs, invalid, GovStep(epoch))
  }

  /** The governance walk over a block. */
  method CollectGovernance(g: Gov.GovState, txs: seq<TxBody>, invalid: set<nat>, epoch: U64)
    returns (r: Option<Gov.GovState>)
    ensures r == BlockGovernance(g, txs, invalid, epoch)
  {
    hide ApplyTxGovernance;
    r := Some(g);
    for n := 0 to |txs|
      invariant r == BlockGovernance(g, txs[..n], invalid, epoch)
    {
      assert txs[..n + 1][..n] == txs[..n] && txs[..n + 1][n] == txs[n];
      if r.Some? && n !in invalid {
        assert GovStep(epoch)(r.value, txs[n]) == ApplyTxGovernance(r.value, txs[n], epoch);
        r := ApplyGovernanceFields(r.value, txs[n], epoch);
      }
    }
    assert txs[..|txs|] == txs;
  }

  lemma {:induction false} GovernanceKeepsDelegations(g: Gov.GovState, txs: seq<TxBody>, invalid: set<nat>, epoch: U64)
    ensures var r := BlockGovernance(g, txs, invalid, epoch);
      r.Some? ==> r.value == g.(proposals := r.value.proposals)
  {
    if txs != [] {
      GovernanceKeepsDelegations(g, txs[..|txs| - 1], invalid, epoch);
    }
  }

  /** Certificates and governance end as if the discarded transactions had not been in the block. */
  lemma DiscardedTransactionsHaveNoEffect(
    s: CertAndGov, g: Gov.GovState, txs: seq<TxBody>, invalid: set<nat>, keyDeposit: Coin,
    env: Option<Gov.GovCertEnv>, epoch: U64)
    ensures BlockCerts(s, txs, invalid, keyDeposit, env) == BlockCerts(s, Kept(txs, invalid), {}, keyDeposit, env)
    ensures BlockGovernance(g, txs, invalid, epoch) == BlockGovernance(g, Kept(txs, invalid), {}, epoch)
  {
    WalkSkipsInvalid(s, txs, invalid, CertStep(keyDeposit, env));
    WalkSkipsInvalid(g, txs, invalid, GovStep(epoch));
  }

  // Bodies of indefinite length.

  /** The same block with every body read as a definite-length map. */
  function Definite(txs: seq<TxBody>): seq<TxBody> {
    seq(|txs|, i requires 0 <= i < |txs| => txs[i].(indefinite := false))
  }

  /** The walk agrees with the definite reading when no kept body of indefinite length carries certificates. */
  lemma {:induction false} NothingLost(
    s: CertAndGov, txs: seq<TxBody>, invalid: set<nat>, keyDeposit: Coin, env: Option<Gov.GovCertEnv>)
    requires forall i :: 0 <= i < |txs| && i !in invalid && txs[i].indefinite ==> txs[i].certs == []
    ensures BlockCerts(s, txs, invalid, keyDeposit, env) == BlockCerts(s, Definite(txs), invalid, keyDeposit, env)
  {
    hide ApplyTxCerts;
    if txs != [] {
      var n := |txs| - 1;
      NothingLost(s, txs[..n], invalid, keyDeposit, env);
      assert Definite(txs)[..n] == Definite(txs[..n]);
      var before := BlockCerts(s, txs[..n], invalid, keyDeposit, env);
      if before.Some? && n !in invalid {
        assert SeenCerts(Definite(txs)[n]) == SeenCerts(txs[n]);
        assert CertStep(keyDeposit, env)(before.value, Definite(txs)[n])
            == CertStep(keyDeposit, env)(before.value, txs[n]);
      }
    }
  }

  /** No block whose bodies have these length forms loses a certificate, from any state. */
  ghost predicate NeverLoses(
    forms: seq<bool>, invalid: set<nat>, keyDeposit: Coin, env: Option<Gov.GovCertEnv>)
  {
    forall s, txs :: HasForms(txs, forms) ==>
      BlockCerts(s, txs, invalid, keyDeposit, env) == BlockCerts(s, Definite(txs), invalid, keyDeposit, env)
  }

  predicate HasForms(txs: seq<TxBody>, forms: seq<bool>) {
    |txs| == |forms| && forall i :: 0 <= i < |txs| ==> txs[i].indefinite == forms[i]
  }

  /**
   Certificates are safe if and only if every kept body is a definite-length map: one
   kept body of indefinite length is enough to lose one.
   */
  lemma CertificatesAreSafeIff(
    forms: seq<bool>, invalid: set<nat>, keyDeposit: Coin, env: Option<Gov.GovCertEnv>, c: Credential)
    ensures NeverLoses(forms, invalid, keyDeposit, env) <==>
              forall i :: 0 <= i < |forms| && i !in invalid ==> !forms[i]
  {
    hide BlockCerts;
    if i :| 0 <= i < |forms| && i !in invalid && forms[i] {
      RegistrationIsLost(forms, invalid, keyDeposit, env, i, c);
    } else {
      forall s, txs | HasForms(txs, forms)
        ensures BlockCerts(s, txs, invalid, keyDeposit, env) == BlockCerts(s, Definite(txs), invalid, keyDeposit, env)
      {
        NothingLost(s, txs, invalid, keyDeposit, env);
      }
    }
  }

  function PlainTx(indefinite: bool, certs: seq<ConwayCert>): TxBody {
    TxBody(seq(32, _ => 0), indefinite, None, None, [], certs, [], None, [], [])
  }

  /** A block that registers `c` in its i-th body and does nothing else. */
  function RegisteringBlock(forms: seq<bool>, i: nat, c: Credential): seq<TxBody> {
    seq(|forms|, j requires 0 <= j < |forms| =>
      PlainTx(forms[j], if j == i then [AccountRegistration(c)] else []))
  }

  function NobodyRegistered(): CertAndGov {
    CertAndGov(CertState(DelegationState(map[], map[], map[]), PoolState(map[], map[], map[])), None)
  }

  function OneRegistered(c: Credential, keyDeposit: Coin): CertAndGov {
    CertAndGov(
      CertState(DelegationState(map[c := keyDeposit], map[], map[c := 0]), PoolState(map[], map[], map[])), None)
  }

  /** The walk leaves everybody unregistered; the definite reading registers `c`. */
  lemma RegistrationIsLost(
    forms: seq<bool>, invalid: set<nat>, keyDeposit: Coin, env: Option<Gov.GovCertEnv>, i: nat, c: Credential)
    requires i < |forms| && i !in invalid && forms[i]
    ensures var txs := RegisteringBlock(forms, i, c);
      && HasForms(txs, forms)
      && BlockCerts(NobodyRegistered(), txs, invalid, keyDeposit, env) == Some(NobodyRegistered())
      && BlockCerts(NobodyRegistered(), Definite(txs), invalid, keyDeposit, env) == Some(OneRegistered(c, keyDeposit))
      && NobodyRegistered() != OneRegistered(c, keyDeposit)
  {
    var txs := RegisteringBlock(forms, i, c);
    WalkOver(txs, |txs|, invalid, keyDeposit, env, i, c);
    WalkOver(Definite(txs), |txs|, invalid, keyDeposit, env, i, c);
    assert txs[..|txs|] == txs && Definite(txs)[..|txs|] == Definite(txs);
    var before, after := NobodyRegistered().cert.delegation, OneRegistered(c, keyDeposit).cert.delegation;
    assert before.registrations != after.registrations by {
      assert c in after.registrations;
    }
  }

  lemma {:induction false} WalkOver(
    txs: seq<TxBody>, n: nat, invalid: set<nat>, keyDeposit: Coin, env: Option<Gov.GovCertEnv>, i: nat, c: Credential)
    requires n <= |txs| && i < |txs| && i !in invalid && txs[i].certs == [AccountRegistration(c)]
    requires forall j :: 0 <= j < |txs| && j != i ==> txs[j].certs == []
    ensures BlockCerts(NobodyRegistered(), txs[..n], invalid, keyDeposit, env)
         == Some(if i < n && !txs[i].indefinite then OneRegistered(c, keyDeposit) else NobodyRegistered())
  {
    hide ApplyTxCerts, NobodyRegistered, OneRegistered;
    if n > 0 {
      WalkOver(txs, n - 1, invalid, keyDeposit, env, i, c);
      assert txs[..n][..n - 1] == txs[..n - 1] && txs[..n][n - 1] == txs[n - 1];
      var before := if i < n - 1 && !txs[i].indefinite then OneRegistered(c, keyDeposit) else NobodyRegistered();
      assert CertStep(keyDeposit, env)(before, txs[n - 1])
          == ApplyTxCerts(before, SeenCerts(txs[n - 1]), keyDeposit, env);
      NoCertificates(before, keyDeposit, env);
      OneRegistration(keyDeposit, env, c);
    }
  }

  lemma NoCertificates(s: CertAndGov, keyDeposit: Coin, env: Option<Gov.GovCertEnv>)
    ensures ApplyTxCerts(s, [], keyDeposit, env) == Some(s)
  {
  }

  lemma OneRegistration(keyDeposit: Coin, env: Option<Gov.GovCertEnv>, c: Credential)
    ensures ApplyTxCerts(NobodyRegistered(), [AccountRegistration(c)], keyDeposit, env)
         == Some(OneRegistered(c, keyDeposit))
  {
    assert [AccountRegistration(c)][..0] == [];
    assert ApplyTxCerts(NobodyRegistered(), [], keyDeposit, env) == Some(NobodyRegistered());
  }

  /** The fee walk counts bodies of either form alike. */
  lemma {:induction false} IndefiniteBodiesPayFees(txs: seq<TxBody>, invalid: set<nat>, resolver: Option<Resolver>)
    ensures Scan(txs, invalid, resolver) == Scan(Definite(txs), invalid, resolver)
  {
    hide ScanTx;
    if txs != [] {
      var n := |txs| - 1;
      IndefiniteBodiesPayFees(txs[..n], invalid, resolver);
      assert Definite(txs)[..n] == Definite(txs[..n]);
      forall t: Totals
        ensures ScanTx(t, Definite(txs)[n], n, invalid, resolver) == ScanTx(t, txs[n], n, invalid, resolver)
      {
        ScanIgnoresForm(t, txs[n], n, invalid, resolver);
      }
    }
  }

  lemma ScanIgnoresForm(t: Totals, tx: TxBody, index: nat, invalid: set<nat>, resolver: Option<Resolver>)
    ensures ScanTx(t, tx.(indefinite := false), index, invalid, resolver) == ScanTx(t, tx, index, invalid, resolver)
  {
  }
}
