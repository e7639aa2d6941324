/**
 The two deposit authorities: the classifier that prices a certificate against the
 state a transaction starts from (crates/ade_ledger/src/cert_classify.rs) and the
 state machine that records deposits (crates/ade_ledger/src/delegation.rs).
 */
module Deposits {
  import opened LedgerTypes
  import opened Sums
  import opened Certificates

  datatype DepositParams = DepositParams(keyDeposit: Coin, poolDeposit: Coin)

  datatype CoinSource = ExplicitInCert(coin: Coin) | DepositParam(coin: Coin) | RegistrationState(coin: Coin)

  datatype DepositEffect = NewDeposit(source: CoinSource) | Refund(source: CoinSource)

  datatype Disposition = Accountable(effect: DepositEffect) | Neutral | NotValidInConway

  datatype Unsupported = LegacyUnregistrationRefundUnresolved

  function Classify(cert: ConwayCert, params: DepositParams, s: CertState): Result<Disposition, Unsupported> {
    match cert
    case AccountRegistration(_) => Ok(Accountable(NewDeposit(DepositParam(params.keyDeposit))))
    case AccountUnregistration(c) =>
      if c in s.delegation.registrations then
        Ok(Accountable(Refund(RegistrationState(s.delegation.registrations[c]))))
      else
        Err(LegacyUnregistrationRefundUnresolved)
    case PoolRegistration(p, _) =>
      if p in s.pool.pools then Ok(Neutral) else Ok(Accountable(NewDeposit(DepositParam(params.poolDeposit))))
    case AccountRegistrationDeposit(_, deposit) => Ok(Accountable(NewDeposit(ExplicitInCert(deposit))))
    case StakeRegistrationDelegation(_, _, deposit) => Ok(Accountable(NewDeposit(ExplicitInCert(deposit))))
    case VoteRegistrationDelegation(_, _, deposit) => Ok(Accountable(NewDeposit(ExplicitInCert(deposit))))
    case StakeVoteRegistrationDelegation(_, _, _, deposit) => Ok(Accountable(NewDeposit(ExplicitInCert(deposit))))
    case DRepRegistration(_, deposit) => Ok(Accountable(NewDeposit(ExplicitInCert(deposit))))
    case AccountUnregistrationDeposit(_, refund) => Ok(Accountable(Refund(ExplicitInCert(refund))))
    case DRepUnregistration(_, refund) => Ok(Accountable(Refund(ExplicitInCert(refund))))
    case RemovedInConway(_) => Ok(NotValidInConway)
    case _ => Ok(Neutral)
  }

  /** The signed amount a disposition moves into deposits. */
  function Amount(r: Result<Disposition, Unsupported>): int {
    match r
    case Ok(Accountable(NewDeposit(src))) => src.coin
    case Ok(Accountable(Refund(src))) => 0 - src.coin
    case _ => 0
  }

  /** The credential whose account a certificate registers or unregisters, if it does. */
  function TouchedAccount(cert: ConwayCert): Option<Credential> {
    match cert
    case AccountRegistration(c) => Some(c)
    case AccountUnregistration(c) => Some(c)
    case AccountRegistrationDeposit(c, _) => Some(c)
    case AccountUnregistrationDeposit(c, _) => Some(c)
    case StakeRegistrationDelegation(c, _, _) => Some(c)
    case VoteRegistrationDelegation(c, _, _) => Some(c)
    case StakeVoteRegistrationDelegation(c, _, _, _) => Some(c)
    case _ => None
  }

  function RegisteredPool(cert: ConwayCert): Option<PoolId> {
    match cert
    case PoolRegistration(p, _) => Some(p)
    case _ => None
  }

  /** Key deposits less refunds, each certificate priced against the starting state. */
  function KeyDeposits(certs: seq<ConwayCert>, params: DepositParams, start: CertState): int {
    if certs == [] then
      0
    else
      var last := certs[|certs| - 1];
      KeyDeposits(certs[..|certs| - 1], params, start)
        + if TouchedAccount(last).Some? then Amount(Classify(last, params, start)) else 0
  }

  function PoolDeposits(certs: seq<ConwayCert>, params: DepositParams, start: CertState): int {
    if certs == [] then
      0
    else
      var last := certs[|certs| - 1];
      PoolDeposits(certs[..|certs| - 1], params, start)
        + if RegisteredPool(last).Some? then Amount(Classify(last, params, start)) else 0
  }

  /** Each account is registered or unregistered at most once, and each pool registered at most once. */
  ghost predicate AtMostOnce(certs: seq<ConwayCert>) {
    forall i, j :: 0 <= i < j < |certs| ==>
      && (TouchedAccount(certs[i]).Some? ==> TouchedAccount(certs[i]) != TouchedAccount(certs[j]))
      && (RegisteredPool(certs[i]).Some? ==> RegisteredPool(certs[i]) != RegisteredPool(certs[j]))
  }

  /** By how much an explicit refund exceeds the deposit recorded for the account. */
  function Excess(cert: ConwayCert, start: CertState): int {
    if cert.AccountUnregistrationDeposit? && cert.credential in start.delegation.registrations then
      cert.refund - start.delegation.registrations[cert.credential]
    else
      0
  }

  function RefundExcess(certs: seq<ConwayCert>, start: CertState): int {
    if certs == [] then 0 else RefundExcess(certs[..|certs| - 1], start) + Excess(certs[|certs| - 1], start)
  }

  /** An account or pool no certificate touched is as it was at the start. */
  lemma {:induction false} Untouched(
    start: CertState, certs: seq<ConwayCert>, keyDeposit: Coin, c: Credential, p: PoolId)
    requires ApplyConwayCerts(start, certs, keyDeposit).Ok?
    ensures var s := ApplyConwayCerts(start, certs, keyDeposit).value;
      && ((forall i :: 0 <= i < |certs| ==> TouchedAccount(certs[i]) != Some(c)) ==>
            && (c in s.delegation.registrations <==> c in start.delegation.registrations)
            && (c in s.delegation.registrations ==>
                  s.delegation.registrations[c] == start.delegation.registrations[c]))
      && ((forall i :: 0 <= i < |certs| ==> RegisteredPool(certs[i]) != Some(p)) ==>
            (p in s.pool.pools <==> p in start.pool.pools))
  {
    if certs != [] {
      var n := |certs| - 1;
      Untouched(start, certs[..n], keyDeposit, c, p);
      assert TouchedAccount(certs[n]) == TouchedAccount(certs[n]);
      assert RegisteredPool(certs[n]) == RegisteredPool(certs[n]);
    }
  }

  /**
   The authorities agree: what the classifier charges against the starting state is
   the change in recorded registrations, if and only if the explicit refunds add up
   to what was recorded; and it charges one pool deposit for each new pool.
   */
  lemma {:induction false} DepositAuthoritiesAgree(start: CertState, certs: seq<ConwayCert>, params: DepositParams)
    requires ApplyConwayCerts(start, certs, params.keyDeposit).Ok?
    requires AtMostOnce(certs)
    ensures var s := ApplyConwayCerts(start, certs, params.keyDeposit).value;
      var recorded := Sum(s.delegation.registrations) - Sum(start.delegation.registrations);
      && KeyDeposits(certs, params, start) + RefundExcess(certs, start) == recorded
      && (KeyDeposits(certs, params, start) == recorded <==> RefundExcess(certs, start) == 0)
      && PoolDeposits(certs, params, start) == params.poolDeposit * (|s.pool.pools| - |start.pool.pools|)
  {
    hide ApplyConwayCert, Classify, Amount, Excess;
    if certs != [] {
      var n := |certs| - 1;
      DepositAuthoritiesAgree(start, certs[..n], params);
      LastCertificateAgrees(start, certs, params);
      var s, t := ApplyConwayCerts(start, certs[..n], params.keyDeposit).value,
                  ApplyConwayCerts(start, certs, params.keyDeposit).value;
      Distribute(params.poolDeposit, |s.pool.pools| - |start.pool.pools|, |t.pool.pools| - |s.pool.pools|);
    }
  }

  lemma LastCertificateAgrees(start: CertState, certs: seq<ConwayCert>, params: DepositParams)
    requires certs != [] && ApplyConwayCerts(start, certs, params.keyDeposit).Ok?
    requires AtMostOnce(certs)
    ensures var last := certs[|certs| - 1];
      var s := ApplyConwayCerts(start, certs[..|certs| - 1], params.keyDeposit).value;
      var t := ApplyConwayCerts(start, certs, params.keyDeposit).value;
      && (if TouchedAccount(last).Some? then Amount(Classify(last, params, start)) else 0) + Excess(last, start)
           == Sum(t.delegation.registrations) - Sum(s.delegation.registrations)
      && (if RegisteredPool(last).Some? then Amount(Classify(last, params, start)) else 0)
           == params.poolDeposit * (|t.pool.pools| - |s.pool.pools|)
  {
    hide ApplyConwayCert, Classify, Amount, Excess;
    var n := |certs| - 1;
    var last, s := certs[n], ApplyConwayCerts(start, certs[..n], params.keyDeposit).value;
    if TouchedAccount(last).Some? {
      Untouched(start, certs[..n], params.keyDeposit, TouchedAccount(last).value, PoolOf(last));
      OneAccount(s, last, params, start, TouchedAccount(last).value);
      TimesNothing(params.poolDeposit, |ApplyConwayCert(s, last, params.keyDeposit).value.pool.pools| - |s.pool.pools|);
    } else {
      Untouched(start, certs[..n], params.keyDeposit, AccountOf(last), PoolOf(last));
      OtherCertificate(s, last, params, start);
    }
  }

  lemma TimesNothing(x: int, d: int)
    requires d == 0
    ensures x * d == 0
  {
  }

  lemma OtherCertificate(s: CertState, cert: ConwayCert, params: DepositParams, start: CertState)
    requires TouchedAccount(cert).None?
    requires ApplyConwayCert(s, cert, params.keyDeposit).Ok?
    requires RegisteredPool(cert).Some? ==> (cert.pool in s.pool.pools <==> cert.pool in start.pool.pools)
    ensures var t := ApplyConwayCert(s, cert, params.keyDeposit).value;
      && t.delegation.registrations == s.delegation.registrations && Excess(cert, start) == 0
      && (if RegisteredPool(cert).Some? then Amount(Classify(cert, params, start)) else 0)
           == params.poolDeposit * (|t.pool.pools| - |s.pool.pools|)
  {
    var t := ApplyConwayCert(s, cert, params.keyDeposit).value;
    if RegisteredPool(cert).Some? && cert.pool !in s.pool.pools {
      assert t.pool.pools.Keys == s.pool.pools.Keys + {cert.pool};
      assert |t.pool.pools| == |s.pool.pools| + 1;
    } else {
      assert t.pool.pools == s.pool.pools;
    }
  }

  lemma OneAccount(s: CertState, cert: ConwayCert, params: DepositParams, start: CertState, c: Credential)
    requires TouchedAccount(cert) == Some(c)
    requires ApplyConwayCert(s, cert, params.keyDeposit).Ok?
    requires c in s.delegation.registrations <==> c in start.delegation.registrations
    requires c in s.delegation.registrations ==> s.delegation.registrations[c] == start.delegation.registrations[c]
    ensures var t := ApplyConwayCert(s, cert, params.keyDeposit).value;
      && Amount(Classify(cert, params, start)) + Excess(cert, start)
           == Sum(t.delegation.registrations) - Sum(s.delegation.registrations)
      && RegisteredPool(cert).None?
      && t.pool == s.pool
  {
    if cert.AccountUnregistration? || cert.AccountUnregistrationDeposit? {
      SumRemove(s.delegation.registrations, c);
    } else {
      var t := ApplyConwayCert(s, cert, params.keyDeposit).value;
      SumUpdate(s.delegation.registrations, c, t.delegation.registrations[c]);
    }
  }

  ghost function PoolOf(cert: ConwayCert): PoolId {
    if RegisteredPool(cert).Some? then RegisteredPool(cert).value else PoolId(seq(28, _ => 0))
  }

  ghost function AccountOf(cert: ConwayCert): Credential {
    if TouchedAccount(cert).Some? then TouchedAccount(cert).value else KeyHash(seq(28, _ => 0))
  }
}
