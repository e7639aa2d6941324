/**
 Governance certificates (crates/ade_ledger/src/gov_cert.rs): vote delegations,
 DRep registrations and committee authorisations.
 */
module GovernanceCerts {
  import opened LedgerTypes
  import opened Certificates

  datatype Vote = VoteNo | VoteYes | VoteAbstain

  datatype GovActionId = GovActionId(txHash: Hash32, index: nat)

  datatype Proposal = Proposal(
    actionId: GovActionId,
    committeeVotes: seq<(Credential, Vote)>,
    drepVotes: seq<(Credential, Vote)>,
    spoVotes: seq<(Hash28, Vote)>,
    deposit: Coin,
    returnAddress: seq<Byte>,
    proposedIn: U64,
    expiresAfter: U64)

  datatype GovState = GovState(
    proposals: seq<Proposal>,
    drepExpiry: map<Credential, U64>,
    voteDelegations: map<Credential, DRep>,
    committeeHotKeys: map<Credential, Credential>,
    govActionLifetime: U64)

  datatype GovCertEnv = GovCertEnv(currentEpoch: U64, drepActivity: U64)

  datatype GovFailure = DRepNotRegistered | MissingDRepActivityParam | DRepActivityOverflow

  type GovResult = Result<GovState, GovFailure>

  function DRepCredential(drep: DRep): Option<Credential> {
    match drep
    case DRepKey(h) => Some(KeyHash(h))
    case DRepScript(h) => Some(ScriptHash(h))
    case _ => None
  }

  function DelegateVote(g: GovState, c: Credential, drep: DRep): GovResult {
    if DRepCredential(drep).Some? && DRepCredential(drep).value !in g.drepExpiry then
      Err(DRepNotRegistered)
    else
      Ok(g.(voteDelegations := g.voteDelegations[c := drep]))
  }

  function SetDRepExpiry(g: GovState, d: Credential, env: Option<GovCertEnv>): GovResult {
    match env
    case None => Err(MissingDRepActivityParam)
    case Some(e) =>
      match CheckedAdd(e.currentEpoch, e.drepActivity)
      case None => Err(DRepActivityOverflow)
      case Some(expiry) => Ok(g.(drepExpiry := g.drepExpiry[d := expiry]))
  }

  function ApplyGovCert(g: GovState, cert: ConwayCert, env: Option<GovCertEnv>): GovResult {
    match cert
    case VoteDelegation(c, drep) => DelegateVote(g, c, drep)
    case StakeVoteDelegation(c, _, drep) => DelegateVote(g, c, drep)
    case VoteRegistrationDelegation(c, drep, _) => DelegateVote(g, c, drep)
    case StakeVoteRegistrationDelegation(c, _, drep, _) => DelegateVote(g, c, drep)
    case AuthCommitteeHot(cold, hot) => Ok(g.(committeeHotKeys := g.committeeHotKeys[hot := cold]))
    case ResignCommitteeCold(cold) =>
      Ok(g.(committeeHotKeys :=
        map h | h in g.committeeHotKeys && g.committeeHotKeys[h] != cold :: g.committeeHotKeys[h]))
    case DRepRegistration(d, _) => SetDRepExpiry(g, d, env)
    case DRepUpdate(d) => SetDRepExpiry(g, d, env)
    case DRepUnregistration(d, _) =>
      Ok(g.(
        drepExpiry := g.drepExpiry - {d},
        voteDelegations := map c | c in g.voteDelegations && DRepCredential(g.voteDelegations[c]) != Some(d) ::
          g.voteDelegations[c]))
    case AccountUnregistration(c) => Ok(g.(voteDelegations := g.voteDelegations - {c}))
    case AccountUnregistrationDeposit(c, _) => Ok(g.(voteDelegations := g.voteDelegations - {c}))
    case _ => Ok(g)
  }

  /** One certificate with the environment it is applied in. */
  type GovStep = (ConwayCert, Option<GovCertEnv>)

  function Run(g: GovState, steps: seq<GovStep>): GovResult {
    if steps == [] then
      Ok(g)
    else
      var g' :- Run(g, steps[..|steps| - 1]);
      ApplyGovCert(g', steps[|steps| - 1].0, steps[|steps| - 1].1)
  }

  /** Every vote delegation to a credential DRep names a registered one. */
  ghost predicate NoDanglingVotes(g: GovState) {
    forall c :: c in g.voteDelegations && DRepCredential(g.voteDelegations[c]).Some? ==>
      DRepCredential(g.voteDelegations[c]).value in g.drepExpiry
  }

  lemma {:induction false} RunKeepsNoDanglingVotes(g: GovState, steps: seq<GovStep>)
    requires NoDanglingVotes(g)
    ensures Run(g, steps).Ok? ==> NoDanglingVotes(Run(g, steps).value)
  {
    if steps != [] {
      RunKeepsNoDanglingVotes(g, steps[..|steps| - 1]);
    }
  }

  /** The vote delegation a certificate asks for, if any. */
  function VoteTarget(cert: ConwayCert): Option<(Credential, DRep)> {
    match cert
    case VoteDelegation(c, drep) => Some((c, drep))
    case StakeVoteDelegation(c, _, drep) => Some((c, drep))
    case VoteRegistrationDelegation(c, drep, _) => Some((c, drep))
    case StakeVoteRegistrationDelegation(c, _, drep, _) => Some((c, drep))
    case _ => None
  }

  /** A delegation in force after a run was in force before it, or a certificate of the run made it. */
  lemma {:induction false} VotesComeFromCertificates(g: GovState, steps: seq<GovStep>, c: Credential)
    requires Run(g, steps).Ok? && c in Run(g, steps).value.voteDelegations
    ensures var drep := Run(g, steps).value.voteDelegations[c];
      || (c in g.voteDelegations && g.voteDelegations[c] == drep)
      || (exists i :: 0 <= i < |steps| && VoteTarget(steps[i].0) == Some((c, drep)))
  {
    if steps != [] {
      var n := |steps| - 1;
      var before := Run(g, steps[..n]).value;
      var drep := Run(g, steps).value.voteDelegations[c];
      if VoteTarget(steps[n].0) != Some((c, drep)) {
        assert c in before.voteDelegations && before.voteDelegations[c] == drep;
        VotesComeFromCertificates(g, steps[..n], c);
        if i :| 0 <= i < n && VoteTarget(steps[..n][i].0) == Some((c, drep)) {
          assert VoteTarget(steps[i].0) == Some((c, drep));
        }
      }
    }
  }

  /**
   After a DRep unregisters, whoever delegates to it later asked for it in a later
   certificate: re-registering the DRep brings no old delegation back.
   */
  lemma NoVoteReturnsToDRep(g: GovState, d: Credential, refund: Coin, env: Option<GovCertEnv>,
                            steps: seq<GovStep>, c: Credential)
    ensures var cleared := ApplyGovCert(g, DRepUnregistration(d, refund), env).value;
      var r := Run(cleared, steps);
      r.Ok? && c in r.value.voteDelegations && DRepCredential(r.value.voteDelegations[c]) == Some(d) ==>
        exists i :: 0 <= i < |steps| && VoteTarget(steps[i].0) == Some((c, r.value.voteDelegations[c]))
  {
    var cleared := ApplyGovCert(g, DRepUnregistration(d, refund), env).value;
    var r := Run(cleared, steps);
    if r.Ok? && c in r.value.voteDelegations && DRepCredential(r.value.voteDelegations[c]) == Some(d) {
      VotesComeFromCertificates(cleared, steps, c);
    }
  }

  /** Both certificates that unregister an account, with the implicit and the explicit refund. */
  predicate UnregistersAccount(cert: ConwayCert, c: Credential) {
    (cert.AccountUnregistration? || cert.AccountUnregistrationDeposit?) && cert.credential == c
  }

  /** An unregistered account has no vote delegation until a later certificate gives it one. */
  lemma NoVoteReturnsToAccount(
    g: GovState, cert: ConwayCert, c: Credential, env: Option<GovCertEnv>, steps: seq<GovStep>)
    requires UnregistersAccount(cert, c)
    ensures var cleared := ApplyGovCert(g, cert, env).value;
      var r := Run(cleared, steps);
      r.Ok? && c in r.value.voteDelegations ==>
        exists i :: 0 <= i < |steps| && VoteTarget(steps[i].0) == Some((c, r.value.voteDelegations[c]))
  {
    var cleared := ApplyGovCert(g, cert, env).value;
    if Run(cleared, steps).Ok? && c in Run(cleared, steps).value.voteDelegations {
      VotesComeFromCertificates(cleared, steps, c);
    }
  }

  /** After a cold key resigns, a hot key maps to it only if it was authorised again. */
  lemma {:induction false} ResignedStaysResigned(g: GovState, cold: Credential, env: Option<GovCertEnv>,
                                                 steps: seq<GovStep>, hot: Credential)
    ensures var cleared := ApplyGovCert(g, ResignCommitteeCold(cold), env).value;
      var r := Run(cleared, steps);
      r.Ok? && hot in r.value.committeeHotKeys && r.value.committeeHotKeys[hot] == cold ==>
        exists i :: 0 <= i < |steps| && steps[i].0 == AuthCommitteeHot(cold, hot)
    decreases |steps|
  {
    var cleared := ApplyGovCert(g, ResignCommitteeCold(cold), env).value;
    var r := Run(cleared, steps);
    if steps != [] && r.Ok? && hot in r.value.committeeHotKeys && r.value.committeeHotKeys[hot] == cold {
      var n := |steps| - 1;
      if steps[n].0 != AuthCommitteeHot(cold, hot) {
        ResignedStaysResigned(g, cold, env, steps[..n], hot);
        var i :| 0 <= i < n && steps[..n][i].0 == AuthCommitteeHot(cold, hot);
        assert steps[i].0 == AuthCommitteeHot(cold, hot);
      }
    }
  }
}
