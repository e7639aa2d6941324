/**
 What a history of certificates and epoch boundaries leaves, read off the history alone:
 each account's deposit and pool, each pool's retirement, each DRep's expiry, each
 committee hot key, and exactly which certificate comes next without being refused
 (crates/ade_ledger/src/delegation.rs, crates/ade_ledger/src/gov_cert.rs).
 */
module CertHistory {
  import opened LedgerTypes
  import opened Certificates
  import opened BlockEffects
  import Gov = GovernanceCerts

  /** A certificate applied in an epoch, or the boundary into an epoch. */
  datatype Move = Did(cert: ConwayCert, epoch: U64) | Entered(epoch: U64)

  /** The implicit key deposit, and how long a DRep stays active, where that is known. */
  datatype Terms = Terms(keyDeposit: Coin, activity: Option<U64>)

  function EnvAt(terms: Terms, epoch: U64): Option<Gov.GovCertEnv> {
    if terms.activity.None? then None else Some(Gov.GovCertEnv(epoch, terms.activity.value))
  }

  function Get<K, V>(m: map<K, V>, k: K): Option<V> {
    if k in m then Some(m[k]) else None
  }

  // What the history says.

  /** The account a certificate registers, and the deposit it takes for it. */
  function Registers(cert: ConwayCert, keyDeposit: Coin): Option<(Credential, Coin)> {
    match cert
    case AccountRegistration(c) => Some((c, keyDeposit))
    case AccountRegistrationDeposit(c, deposit) => Some((c, deposit))
    case StakeRegistrationDelegation(c, _, deposit) => Some((c, deposit))
    case VoteRegistrationDelegation(c, _, deposit) => Some((c, deposit))
    case StakeVoteRegistrationDelegation(c, _, _, deposit) => Some((c, deposit))
    case _ => None
  }

  /** The account's recorded deposit: set by the last registration, dropped by an unregistration. */
  function DepositAfter(before: Option<Coin>, keyDeposit: Coin, moves: seq<Move>, c: Credential): Option<Coin> {
    if moves == [] then
      before
    else
      var held := DepositAfter(before, keyDeposit, moves[..|moves| - 1], c);
      match moves[|moves| - 1]
      case Entered(_) => held
      case Did(cert, _) =>
        if Registers(cert, keyDeposit).Some? && Registers(cert, keyDeposit).value.0 == c then
          Some(Registers(cert, keyDeposit).value.1)
        else if Gov.UnregistersAccount(cert, c) then
          None
        else
          held
  }

  /** The epoch a pool retires at: set by the last retirement, cancelled by a registration, spent at its boundary. */
  function RetirementAfter(before: Option<U64>, moves: seq<Move>, p: PoolId): Option<U64> {
    if moves == [] then
      before
    else
      var held := RetirementAfter(before, moves[..|moves| - 1], p);
      match moves[|moves| - 1]
      case Entered(e) => if held == Some(e) then None else held
      case Did(cert, _) =>
        match cert
        case PoolRetirement(q, e) => if q == p then Some(e) else held
        case PoolRegistration(q, _) => if q == p then None else held
        case _ => held
  }

  /** Whether a pool is active: from its registration until the boundary it retires at. */
  function ActiveAfter(before: CertState, moves: seq<Move>, p: PoolId): bool {
    if moves == [] then
      p in before.pool.pools
    else
      var init := moves[..|moves| - 1];
      match moves[|moves| - 1]
      case Entered(e) =>
        ActiveAfter(before, init, p) && RetirementAfter(Get(before.pool.retiring, p), init, p) != Some(e)
      case Did(cert, _) => ActiveAfter(before, init, p) || (cert.PoolRegistration? && cert.pool == p)
  }

  /** The pool a certificate delegates an account's stake to. */
  function StakeTarget(cert: ConwayCert): Option<(Credential, PoolId)> {
    match cert
    case StakeDelegation(c, p) => Some((c, p))
    case StakeVoteDelegation(c, p, _) => Some((c, p))
    case StakeRegistrationDelegation(c, p, _) => Some((c, p))
    case StakeVoteRegistrationDelegation(c, p, _, _) => Some((c, p))
    case _ => None
  }

  /**
   The pool an account delegates to: that of the last certificate delegating it, until the
   account is unregistered or the boundary at which that pool retires.
   */
  function PoolAfter(before: CertState, moves: seq<Move>, c: Credential): Option<PoolId> {
    if moves == [] then
      Get(before.delegation.delegations, c)
    else
      var init := moves[..|moves| - 1];
      var held := PoolAfter(before, init, c);
      match moves[|moves| - 1]
      case Entered(e) =>
        if held.Some? && RetirementAfter(Get(before.pool.retiring, held.value), init, held.value) == Some(e)
        then None else held
      case Did(cert, _) =>
        if StakeTarget(cert).Some? && StakeTarget(cert).value.0 == c then Some(StakeTarget(cert).value.1)
        else if Gov.UnregistersAccount(cert, c) then None
        else held
  }

  /** A DRep's expiry: so many epochs after its last registration or update; an update registers too. */
  function ExpiryAfter(before: Option<U64>, activity: Option<U64>, moves: seq<Move>, d: Credential): Option<int> {
    if moves == [] then
      if before.None? then None else Some(before.value)
    else
      var held := ExpiryAfter(before, activity, moves[..|moves| - 1], d);
      match moves[|moves| - 1]
      case Entered(_) => held
      case Did(cert, epoch) =>
        if (cert.DRepRegistration? || cert.DRepUpdate?) && cert.drepCredential == d && activity.Some? then
          Some(epoch + activity.value)
        else if cert.DRepUnregistration? && cert.drepCredential == d then
          None
        else
          held
  }

  /** The cold key a hot key acts for: authorised last, until that cold key resigns. */
  function ColdKeyAfter(before: Option<Credential>, moves: seq<Move>, hot: Credential): Option<Credential> {
    if moves == [] then
      before
    else
      var held := ColdKeyAfter(before, moves[..|moves| - 1], hot);
      match moves[|moves| - 1]
      case Entered(_) => held
      case Did(cert, _) =>
        if cert.AuthCommitteeHot? && cert.hot == hot then Some(cert.cold)
        else if cert.ResignCommitteeCold? && held == Some(cert.cold) then None
        else held
  }

  // The state against the history.

  predicate TellsDeposit(s: CertState, terms: Terms, moves: seq<Move>, t: CertState, c: Credential) {
    Get(t.delegation.registrations, c)
    == DepositAfter(Get(s.delegation.registrations, c), terms.keyDeposit, moves, c)
  }

  predicate TellsStake(s: CertState, moves: seq<Move>, t: CertState, c: Credential) {
    Get(t.delegation.delegations, c) == PoolAfter(s, moves, c)
  }

  predicate TellsPool(s: CertState, moves: seq<Move>, t: CertState, p: PoolId) {
    && Get(t.pool.retiring, p) == RetirementAfter(Get(s.pool.retiring, p), moves, p)
    && (p in t.pool.pools <==> ActiveAfter(s, moves, p))
  }

  ghost predicate TellsCert(s: CertState, terms: Terms, moves: seq<Move>, t: CertState) {
    && (forall c :: TellsDeposit(s, terms, moves, t, c))
    && (forall c :: TellsStake(s, moves, t, c))
    && (forall p :: TellsPool(s, moves, t, p))
  }

  predicate TellsDRep(g: Gov.GovState, terms: Terms, moves: seq<Move>, h: Gov.GovState, d: Credential) {
    (if d in h.drepExpiry then Some(h.drepExpiry[d] as int) else None)
    == ExpiryAfter(Get(g.drepExpiry, d), terms.activity, moves, d)
  }

  predicate TellsHotKey(g: Gov.GovState, moves: seq<Move>, h: Gov.GovState, k: Credential) {
    Get(h.committeeHotKeys, k) == ColdKeyAfter(Get(g.committeeHotKeys, k), moves, k)
  }

  ghost predicate TellsGov(g: Gov.GovState, terms: Terms, moves: seq<Move>, h: Gov.GovState) {
    (forall d :: TellsDRep(g, terms, moves, h, d)) && (forall k :: TellsHotKey(g, moves, h, k))
  }

  /** The history tells both states, and governance is tracked throughout or not at all. */
  ghost predicate Tells(s: CertAndGov, terms: Terms, moves: seq<Move>, t: CertAndGov) {
    && TellsCert(s.cert, terms, moves, t.cert)
    && s.gov.Some? == t.gov.Some?
    && (s.gov.Some? ==> TellsGov(s.gov.value, terms, moves, t.gov.value))
  }

  lemma NothingToTell(s: CertAndGov, terms: Terms)
    ensures Tells(s, terms, [], s)
  {
  }

  lemma DepositStep(
    s: CertState, terms: Terms, moves: seq<Move>, t: CertState, cert: ConwayCert, epoch: U64, c: Credential)
    requires TellsDeposit(s, terms, moves, t, c) && ApplyConwayCert(t, cert, terms.keyDeposit).Ok?
    ensures TellsDeposit(s, terms, moves + [Did(cert, epoch)], ApplyConwayCert(t, cert, terms.keyDeposit).value, c)
  {
    Latest(moves, Did(cert, epoch));
  }

  lemma StakeStep(
    s: CertState, terms: Terms, moves: seq<Move>, t: CertState, cert: ConwayCert, epoch: U64, c: Credential)
    requires TellsStake(s, moves, t, c) && ApplyConwayCert(t, cert, terms.keyDeposit).Ok?
    ensures TellsStake(s, moves + [Did(cert, epoch)], ApplyConwayCert(t, cert, terms.keyDeposit).value, c)
  {
    hide RetirementAfter;
    Latest(moves, Did(cert, epoch));
  }

  lemma PoolStep(
    s: CertState, terms: Terms, moves: seq<Move>, t: CertState, cert: ConwayCert, epoch: U64, p: PoolId)
    requires TellsPool(s, moves, t, p) && ApplyConwayCert(t, cert, terms.keyDeposit).Ok?
    ensures TellsPool(s, moves + [Did(cert, epoch)], ApplyConwayCert(t, cert, terms.keyDeposit).value, p)
  {
    Latest(moves, Did(cert, epoch));
  }

  lemma Latest(moves: seq<Move>, m: Move)
    ensures (moves + [m])[..|moves + [m]| - 1] == moves && (moves + [m])[|moves + [m]| - 1] == m
  {
  }

  lemma CertStepTells(s: CertState, terms: Terms, moves: seq<Move>, t: CertState, cert: ConwayCert, epoch: U64)
    requires TellsCert(s, terms, moves, t) && ApplyConwayCert(t, cert, terms.keyDeposit).Ok?
    ensures TellsCert(s, terms, moves + [Did(cert, epoch)], ApplyConwayCert(t, cert, terms.keyDeposit).value)
  {
    hide ApplyConwayCert, TellsDeposit, TellsStake, TellsPool;
    var told, after := moves + [Did(cert, epoch)], ApplyConwayCert(t, cert, terms.keyDeposit).value;
    forall c
      ensures TellsDeposit(s, terms, told, after, c) && TellsStake(s, told, after, c)
    {
      DepositStep(s, terms, moves, t, cert, epoch, c);
      StakeStep(s, terms, moves, t, cert, epoch, c);
    }
    forall p
      ensures TellsPool(s, told, after, p)
    {
      PoolStep(s, terms, moves, t, cert, epoch, p);
    }
  }

  lemma DRepStep(
    g: Gov.GovState, terms: Terms, moves: seq<Move>, h: Gov.GovState, cert: ConwayCert, epoch: U64, d: Credential)
    requires TellsDRep(g, terms, moves, h, d) && Gov.ApplyGovCert(h, cert, EnvAt(terms, epoch)).Ok?
    ensures TellsDRep(g, terms, moves + [Did(cert, epoch)],
                      Gov.ApplyGovCert(h, cert, EnvAt(terms, epoch)).value, d)
  {
    Latest(moves, Did(cert, epoch));
  }

  lemma HotKeyStep(
    g: Gov.GovState, terms: Terms, moves: seq<Move>, h: Gov.GovState, cert: ConwayCert, epoch: U64, k: Credential)
    requires TellsHotKey(g, moves, h, k) && Gov.ApplyGovCert(h, cert, EnvAt(terms, epoch)).Ok?
    ensures TellsHotKey(g, moves + [Did(cert, epoch)], Gov.ApplyGovCert(h, cert, EnvAt(terms, epoch)).value, k)
  {
    Latest(moves, Did(cert, epoch));
  }

  lemma GovStepTells(
    g: Gov.GovState, terms: Terms, moves: seq<Move>, h: Gov.GovState, cert: ConwayCert, epoch: U64)
    requires TellsGov(g, terms, moves, h) && Gov.ApplyGovCert(h, cert, EnvAt(terms, epoch)).Ok?
    ensures TellsGov(g, terms, moves + [Did(cert, epoch)], Gov.ApplyGovCert(h, cert, EnvAt(terms, epoch)).value)
  {
    hide Gov.ApplyGovCert, TellsDRep, TellsHotKey;
    var after := Gov.ApplyGovCert(h, cert, EnvAt(terms, epoch)).value;
    forall d
      ensures TellsDRep(g, terms, moves + [Did(cert, epoch)], after, d)
    {
      DRepStep(g, terms, moves, h, cert, epoch, d);
    }
    forall k
      ensures TellsHotKey(g, moves + [Did(cert, epoch)], after, k)
    {
      HotKeyStep(g, terms, moves, h, cert, epoch, k);
    }
  }

  lemma ReapAccount(s: CertState, terms: Terms, moves: seq<Move>, t: CertState, epoch: U64, c: Credential)
    requires TellsDeposit(s, terms, moves, t, c) && TellsStake(s, moves, t, c)
    requires c in t.delegation.delegations ==> TellsPool(s, moves, t, t.delegation.delegations[c])
    ensures TellsDeposit(s, terms, moves + [Entered(epoch)], Reap(t, epoch), c)
    ensures TellsStake(s, moves + [Entered(epoch)], Reap(t, epoch), c)
  {
    hide ActiveAfter, Adopt;
    assert Adopt(t).delegation == t.delegation by {
      AdoptKeeps(t);
    }
    Latest(moves, Entered(epoch));
  }

  lemma AdoptKeeps(t: CertState)
    ensures Adopt(t).delegation == t.delegation && Adopt(t).pool.retiring == t.pool.retiring
    ensures Adopt(t).pool.pools.Keys == t.pool.pools.Keys
  {
  }

  lemma ReapPool(s: CertState, moves: seq<Move>, t: CertState, epoch: U64, p: PoolId)
    requires TellsPool(s, moves, t, p)
    ensures TellsPool(s, moves + [Entered(epoch)], Reap(t, epoch), p)
  {
    hide Adopt;
    AdoptKeeps(t);
    Latest(moves, Entered(epoch));
  }

  /** The reap at the boundary into `epoch`. */
  lemma ReapTells(s: CertState, terms: Terms, moves: seq<Move>, t: CertState, epoch: U64)
    requires TellsCert(s, terms, moves, t)
    ensures TellsCert(s, terms, moves + [Entered(epoch)], Reap(t, epoch))
  {
    hide Reap, TellsDeposit, TellsStake, TellsPool;
    var told, after := moves + [Entered(epoch)], Reap(t, epoch);
    forall c
      ensures TellsDeposit(s, terms, told, after, c) && TellsStake(s, told, after, c)
    {
      ReapAccount(s, terms, moves, t, epoch, c);
    }
    forall p
      ensures TellsPool(s, told, after, p)
    {
      ReapPool(s, moves, t, epoch, p);
    }
  }

  lemma EnteringTells(g: Gov.GovState, terms: Terms, moves: seq<Move>, h: Gov.GovState, epoch: U64)
    requires TellsGov(g, terms, moves, h)
    ensures TellsGov(g, terms, moves + [Entered(epoch)], h)
  {
    Latest(moves, Entered(epoch));
    forall d
      ensures TellsDRep(g, terms, moves + [Entered(epoch)], h, d)
    {
      assert TellsDRep(g, terms, moves, h, d);
    }
    forall k
      ensures TellsHotKey(g, moves + [Entered(epoch)], h, k)
    {
      assert TellsHotKey(g, moves, h, k);
    }
  }

  /** A list of certificates, all in one epoch. */
  function AllDid(certs: seq<ConwayCert>, epoch: U64): seq<Move> {
    seq(|certs|, i requires 0 <= i < |certs| => Did(certs[i], epoch))
  }

  /** After any accepted list of certificates, from any state. */
  lemma {:induction false} ListTells(
    s: CertAndGov, terms: Terms, moves: seq<Move>, t: CertAndGov, certs: seq<ConwayCert>, epoch: U64)
    requires Tells(s, terms, moves, t) && ApplyTxCerts(t, certs, terms.keyDeposit, EnvAt(terms, epoch)).Some?
    ensures Tells(s, terms, moves + AllDid(certs, epoch),
                  ApplyTxCerts(t, certs, terms.keyDeposit, EnvAt(terms, epoch)).value)
  {
    hide TellsCert, TellsGov, ApplyConwayCert, Gov.ApplyGovCert;
    if certs == [] {
      assert moves + AllDid(certs, epoch) == moves;
    } else {
      var n := |certs| - 1;
      ListTells(s, terms, moves, t, certs[..n], epoch);
      var before := ApplyTxCerts(t, certs[..n], terms.keyDeposit, EnvAt(terms, epoch)).value;
      var told := moves + AllDid(certs[..n], epoch);
      assert moves + AllDid(certs, epoch) == told + [Did(certs[n], epoch)];
      CertStepTells(s.cert, terms, told, before.cert, certs[n], epoch);
      if s.gov.Some? {
        GovStepTells(s.gov.value, terms, told, before.gov.value, certs[n], epoch);
      }
    }
  }

  // What is accepted.

  predicate Registered(s: CertState, terms: Terms, moves: seq<Move>, c: Credential) {
    DepositAfter(Get(s.delegation.registrations, c), terms.keyDeposit, moves, c).Some?
  }

  predicate NeedsAccount(cert: ConwayCert) {
    || cert.AccountUnregistration? || cert.AccountUnregistrationDeposit?
    || cert.StakeDelegation? || cert.StakeVoteDelegation?
  }

  /** What the certificate state asks of a certificate, in terms of the history. */
  predicate AdmissibleCert(s: CertState, terms: Terms, moves: seq<Move>, cert: ConwayCert) {
    && !cert.RemovedInConway?
    && (Registers(cert, terms.keyDeposit).Some? ==>
          !Registered(s, terms, moves, Registers(cert, terms.keyDeposit).value.0))
    && (NeedsAccount(cert) ==> Registered(s, terms, moves, cert.credential))
    && (StakeTarget(cert).Some? ==> ActiveAfter(s, moves, StakeTarget(cert).value.1))
    && (cert.PoolRetirement? ==> ActiveAfter(s, moves, cert.pool))
  }

  /** What the governance state asks besides. */
  predicate AdmissibleGov(g: Gov.GovState, terms: Terms, moves: seq<Move>, cert: ConwayCert, epoch: U64) {
    && (Gov.VoteTarget(cert).Some? && Gov.DRepCredential(Gov.VoteTarget(cert).value.1).Some? ==>
          var d := Gov.DRepCredential(Gov.VoteTarget(cert).value.1).value;
          ExpiryAfter(Get(g.drepExpiry, d), terms.activity, moves, d).Some?)
    && (cert.DRepRegistration? || cert.DRepUpdate? ==>
          terms.activity.Some? && epoch + terms.activity.value <= U64_MAX)
  }

  predicate Admissible(s: CertAndGov, terms: Terms, moves: seq<Move>, cert: ConwayCert, epoch: U64) {
    && AdmissibleCert(s.cert, terms, moves, cert)
    && (s.gov.Some? ==> AdmissibleGov(s.gov.value, terms, moves, cert, epoch))
  }

  lemma CertAcceptedIff(s: CertState, terms: Terms, moves: seq<Move>, t: CertState, cert: ConwayCert)
    requires TellsCert(s, terms, moves, t)
    ensures ApplyConwayCert(t, cert, terms.keyDeposit).Ok? <==> AdmissibleCert(s, terms, moves, cert)
  {
    hide DepositAfter, ActiveAfter, RetirementAfter, PoolAfter;
    if NeedsAccount(cert) {
      assert TellsDeposit(s, terms, moves, t, cert.credential);
    }
    if Registers(cert, terms.keyDeposit).Some? {
      assert TellsDeposit(s, terms, moves, t, Registers(cert, terms.keyDeposit).value.0);
    }
    if StakeTarget(cert).Some? {
      assert TellsPool(s, moves, t, StakeTarget(cert).value.1);
    }
    if cert.PoolRetirement? {
      assert TellsPool(s, moves, t, cert.pool);
    }
  }

  lemma GovAcceptedIff(
    g: Gov.GovState, terms: Terms, moves: seq<Move>, h: Gov.GovState, cert: ConwayCert, epoch: U64)
    requires TellsGov(g, terms, moves, h)
    ensures Gov.ApplyGovCert(h, cert, EnvAt(terms, epoch)).Ok? <==> AdmissibleGov(g, terms, moves, cert, epoch)
  {
    hide ExpiryAfter, ColdKeyAfter;
    if Gov.VoteTarget(cert).Some? && Gov.DRepCredential(Gov.VoteTarget(cert).value.1).Some? {
      assert TellsDRep(g, terms, moves, h, Gov.DRepCredential(Gov.VoteTarget(cert).value.1).value);
    }
  }

  lemma LastAcceptedIff(s: CertAndGov, terms: Terms, certs: seq<ConwayCert>, epoch: U64)
    requires certs != [] && ApplyTxCerts(s, certs[..|certs| - 1], terms.keyDeposit, EnvAt(terms, epoch)).Some?
    ensures var n := |certs| - 1;
      ApplyTxCerts(s, certs, terms.keyDeposit, EnvAt(terms, epoch)).Some? <==>
        Admissible(s, terms, AllDid(certs[..n], epoch), certs[n], epoch)
  {
    hide TellsCert, TellsGov, ApplyConwayCert, Gov.ApplyGovCert, AdmissibleCert, AdmissibleGov;
    var init, last := certs[..|certs| - 1], certs[|certs| - 1];
    var before := ApplyTxCerts(s, init, terms.keyDeposit, EnvAt(terms, epoch)).value;
    NothingToTell(s, terms);
    ListTells(s, terms, [], s, init, epoch);
    assert [] + AllDid(init, epoch) == AllDid(init, epoch);
    CertAcceptedIff(s.cert, terms, AllDid(init, epoch), before.cert, last);
    if s.gov.Some? {
      GovAcceptedIff(s.gov.value, terms, AllDid(init, epoch), before.gov.value, last, epoch);
    }
  }

  /** Every certificate is admissible after those before it. */
  ghost predicate AllAdmissible(s: CertAndGov, terms: Terms, certs: seq<ConwayCert>, epoch: U64) {
    forall n :: 0 <= n < |certs| ==> Admissible(s, terms, AllDid(certs[..n], epoch), certs[n], epoch)
  }

  lemma AdmissibleInParts(s: CertAndGov, terms: Terms, certs: seq<ConwayCert>, epoch: U64)
    requires certs != []
    ensures var n := |certs| - 1;
      AllAdmissible(s, terms, certs, epoch) <==>
        AllAdmissible(s, terms, certs[..n], epoch)
        && Admissible(s, terms, AllDid(certs[..n], epoch), certs[n], epoch)
  {
    hide Admissible, AllDid;
    var init := certs[..|certs| - 1];
    assert forall k :: 0 <= k < |init| ==> init[..k] == certs[..k] && init[k] == certs[k];
  }

  /** A list is accepted if and only if every certificate is admissible after those before it. */
  lemma {:induction false} ListAcceptedIff(s: CertAndGov, terms: Terms, certs: seq<ConwayCert>, epoch: U64)
    ensures ApplyTxCerts(s, certs, terms.keyDeposit, EnvAt(terms, epoch)).Some? <==>
              AllAdmissible(s, terms, certs, epoch)
  {
    hide ApplyBoth, Admissible, AllAdmissible;
    if certs == [] {
      NothingToAdmit(s, terms, epoch);
    } else {
      ListAcceptedIff(s, terms, certs[..|certs| - 1], epoch);
      AdmissibleInParts(s, terms, certs, epoch);
      if ApplyTxCerts(s, certs[..|certs| - 1], terms.keyDeposit, EnvAt(terms, epoch)).Some? {
        LastAcceptedIff(s, terms, certs, epoch);
      }
    }
  }

  lemma NothingToAdmit(s: CertAndGov, terms: Terms, epoch: U64)
    ensures AllAdmissible(s, terms, [], epoch)
  {
  }
}
