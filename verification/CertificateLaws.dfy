/**
 What every run of certificates, reaps, reward deltas and withdrawals keeps, and
 when a staged pool registration takes effect.
 */
module CertificateLaws {
  import opened LedgerTypes
  import opened Certificates

  /**
   Delegating credentials are registered, registered credentials have a reward
   entry, delegations name active pools, and retiring and staged pools are active.
   */
  ghost predicate Coherent(s: CertState) {
    && s.delegation.delegations.Keys <= s.delegation.registrations.Keys
    && s.delegation.registrations.Keys <= s.delegation.rewards.Keys
    && (forall c :: c in s.delegation.delegations ==> s.delegation.delegations[c] in s.pool.pools)
    && s.pool.retiring.Keys <= s.pool.pools.Keys
    && s.pool.futurePools.Keys <= s.pool.pools.Keys
  }

  datatype LedgerStep =
    | ConwayStep(conway: ConwayCert, conwayDeposit: Coin)
    | ShelleyStep(shelley: ShelleyCert, shelleyDeposit: Coin)
    | ReapStep(epoch: U64)
    | RewardStep(delta: map<Credential, Coin>)
    | WithdrawStep(credential: Credential)

  /** One step; `None` is a refusal. */
  function Step(s: CertState, step: LedgerStep): Option<CertState> {
    match step
    case ConwayStep(cert, deposit) => Accepted(ApplyConwayCert(s, cert, deposit))
    case ShelleyStep(cert, deposit) => Accepted(ApplyShelleyCert(s, cert, deposit))
    case ReapStep(epoch) => Some(Reap(s, epoch))
    case RewardStep(delta) =>
      (match AddRewards(s.delegation.rewards, delta)
       case None => None
       case Some(rewards) => Some(WithRewards(s, rewards)))
    case WithdrawStep(c) => Some(Withdraw(s, c))
  }

  function Accepted(r: CertResult): Option<CertState> {
    if r.Ok? then Some(r.value) else None
  }

  function Run(s: CertState, steps: seq<LedgerStep>): Option<CertState> {
    if steps == [] then
      Some(s)
    else
      match Run(s, steps[..|steps| - 1])
      case None => None
      case Some(s') => Step(s', steps[|steps| - 1])
  }

  lemma ConwayCertKeepsCoherent(s: CertState, cert: ConwayCert, keyDeposit: Coin)
    requires Coherent(s)
    ensures ApplyConwayCert(s, cert, keyDeposit).Ok? ==> Coherent(ApplyConwayCert(s, cert, keyDeposit).value)
  {
  }

  lemma StepKeepsCoherent(s: CertState, step: LedgerStep)
    requires Coherent(s)
    ensures Step(s, step).Some? ==> Coherent(Step(s, step).value)
  {
    match step
    case ConwayStep(cert, deposit) => ConwayCertKeepsCoherent(s, cert, deposit);
    case _ =>
  }

  /** Every reachable certificate state is coherent. */
  lemma {:induction false} RunKeepsCoherent(s: CertState, steps: seq<LedgerStep>)
    requires Coherent(s)
    ensures Run(s, steps).Some? ==> Coherent(Run(s, steps).value)
  {
    if steps != [] {
      var prefix := steps[..|steps| - 1];
      RunKeepsCoherent(s, prefix);
      if Run(s, prefix).Some? {
        StepKeepsCoherent(Run(s, prefix).value, steps[|steps| - 1]);
      }
    }
  }

  lemma {:induction false} ConwayCertsKeepCoherent(s: CertState, certs: seq<ConwayCert>, keyDeposit: Coin)
    requires Coherent(s)
    ensures ApplyConwayCerts(s, certs, keyDeposit).Ok? ==> Coherent(ApplyConwayCerts(s, certs, keyDeposit).value)
  {
    if certs != [] {
      var prefix := certs[..|certs| - 1];
      ConwayCertsKeepCoherent(s, prefix, keyDeposit);
      if ApplyConwayCerts(s, prefix, keyDeposit).Ok? {
        ConwayCertKeepsCoherent(ApplyConwayCerts(s, prefix, keyDeposit).value, certs[|certs| - 1], keyDeposit);
      }
    }
  }

  // No silent reattachment.

  predicate Delegates(step: LedgerStep, c: Credential) {
    match step
    case ConwayStep(StakeDelegation(k, _), _) => k == c
    case ConwayStep(StakeVoteDelegation(k, _, _), _) => k == c
    case ConwayStep(StakeRegistrationDelegation(k, _, _), _) => k == c
    case ConwayStep(StakeVoteRegistrationDelegation(k, _, _, _), _) => k == c
    case ShelleyStep(ShelleyDelegation(k, _), _) => k == c
    case _ => false
  }

  lemma StepLeavesUndelegated(s: CertState, step: LedgerStep, c: Credential)
    requires c !in s.delegation.delegations && !Delegates(step, c)
    ensures Step(s, step).Some? ==> c !in Step(s, step).value.delegation.delegations
  {
  }

  lemma {:induction false} StaysUndelegated(s: CertState, steps: seq<LedgerStep>, c: Credential)
    requires c !in s.delegation.delegations
    requires forall i :: 0 <= i < |steps| ==> !Delegates(steps[i], c)
    ensures Run(s, steps).Some? ==> c !in Run(s, steps).value.delegation.delegations
  {
    if steps != [] {
      var prefix := steps[..|steps| - 1];
      StaysUndelegated(s, prefix, c);
      if Run(s, prefix).Some? {
        StepLeavesUndelegated(Run(s, prefix).value, steps[|steps| - 1], c);
      }
    }
  }

  /**
   The delegators of a reaped pool stay undelegated through any later run,
   re-registrations of that pool included, until a delegation certificate names them.
   */
  lemma ReapedDelegatorsStayUndelegated(s: CertState, epoch: U64, c: Credential, steps: seq<LedgerStep>)
    requires c in s.delegation.delegations && s.delegation.delegations[c] in DuePools(s, epoch)
    requires forall i :: 0 <= i < |steps| ==> !Delegates(steps[i], c)
    ensures Run(Reap(s, epoch), steps).Some? ==> c !in Run(Reap(s, epoch), steps).value.delegation.delegations
  {
    StaysUndelegated(Reap(s, epoch), steps, c);
  }

  // Staged pool registrations.

  function Lookup<V>(m: map<PoolId, V>, p: PoolId): Option<V> {
    if p in m then Some(m[p]) else None
  }

  /** The last registration of `p` in a list, or else what was already staged. */
  function LastStaged(certs: seq<ConwayCert>, p: PoolId, staged: Option<PoolParams>): Option<PoolParams> {
    if certs == [] then
      staged
    else
      match certs[|certs| - 1]
      case PoolRegistration(q, params) =>
        if q == p then Some(params) else LastStaged(certs[..|certs| - 1], p, staged)
      case _ => LastStaged(certs[..|certs| - 1], p, staged)
  }

  /** The retirement of `p` that survives a list: a later registration cancels it, a later retirement replaces it. */
  function SurvivingRetirement(certs: seq<ConwayCert>, p: PoolId, pending: Option<U64>): Option<U64> {
    if certs == [] then
      pending
    else
      match certs[|certs| - 1]
      case PoolRegistration(q, _) =>
        if q == p then None else SurvivingRetirement(certs[..|certs| - 1], p, pending)
      case PoolRetirement(q, e) =>
        if q == p then Some(e) else SurvivingRetirement(certs[..|certs| - 1], p, pending)
      case _ => SurvivingRetirement(certs[..|certs| - 1], p, pending)
  }

  /** Before the reap an active pool keeps its parameters and VRF, whatever certificates are applied. */
  lemma {:induction false} ActivePoolUnchanged(s: CertState, certs: seq<ConwayCert>, keyDeposit: Coin, p: PoolId)
    requires p in s.pool.pools
    requires ApplyConwayCerts(s, certs, keyDeposit).Ok?
    ensures var t := ApplyConwayCerts(s, certs, keyDeposit).value.pool;
      && Lookup(t.pools, p) == Some(s.pool.pools[p])
      && Lookup(t.futurePools, p) == LastStaged(certs, p, Lookup(s.pool.futurePools, p))
      && Lookup(t.retiring, p) == SurvivingRetirement(certs, p, Lookup(s.pool.retiring, p))
  {
    hide ApplyConwayCert;
    if certs != [] {
      var n := |certs| - 1;
      ActivePoolUnchanged(s, certs[..n], keyDeposit, p);
      PoolAfterCert(ApplyConwayCerts(s, certs[..n], keyDeposit).value, certs[n], keyDeposit, p);
    }
  }

  /**
   At the reap it takes its last staged registration, if it has one, unless a
   surviving retirement is due at that very epoch, and then it is gone.
   */
  lemma ReapTakesLastStaged(s: CertState, certs: seq<ConwayCert>, keyDeposit: Coin, p: PoolId, epoch: U64)
    requires p in s.pool.pools
    requires ApplyConwayCerts(s, certs, keyDeposit).Ok?
    ensures var t := Reap(ApplyConwayCerts(s, certs, keyDeposit).value, epoch).pool;
      var staged := LastStaged(certs, p, Lookup(s.pool.futurePools, p));
      Lookup(t.pools, p) ==
        if SurvivingRetirement(certs, p, Lookup(s.pool.retiring, p)) == Some(epoch) then None
        else if staged.Some? then staged
        else Some(s.pool.pools[p])
  {
    ActivePoolUnchanged(s, certs, keyDeposit, p);
  }

  /** The other order: reap first, then adopt for the pools that are left. */
  function ReapThenAdopt(s: CertState, epoch: U64): CertState {
    Adopt(RemoveDue(s, DuePools(s, epoch)))
  }

  /** The order does not matter, on any state. */
  lemma AdoptionCommutesWithReap(s: CertState, epoch: U64)
    ensures Reap(s, epoch) == ReapThenAdopt(s, epoch)
  {
    var a, b := Reap(s, epoch), ReapThenAdopt(s, epoch);
    assert a.pool.pools == b.pool.pools;
    assert a.pool.retiring == b.pool.retiring;
    assert a.delegation.delegations == b.delegation.delegations;
  }

  predicate RegistersPool(cert: ConwayCert, p: PoolId) {
    cert.PoolRegistration? && cert.pool == p
  }

  predicate MentionsPool(certs: seq<ConwayCert>, p: PoolId) {
    exists i :: 0 <= i < |certs| && RegistersPool(certs[i], p)
  }

  /** The certificates that reach `p` while it is active: all of them, or those after its first registration. */
  function WhileActive(certs: seq<ConwayCert>, p: PoolId, active: bool): seq<ConwayCert> {
    if certs == [] then
      []
    else
      var init := certs[..|certs| - 1];
      if active || MentionsPool(init, p) then WhileActive(init, p, active) + [certs[|certs| - 1]] else []
  }

  lemma MentionsAppend(certs: seq<ConwayCert>, p: PoolId)
    requires certs != []
    ensures MentionsPool(certs, p) <==>
              MentionsPool(certs[..|certs| - 1], p) || RegistersPool(certs[|certs| - 1], p)
  {
    var n := |certs| - 1;
    if i :| 0 <= i < n && RegistersPool(certs[..n][i], p) {
      assert RegistersPool(certs[i], p);
    }
    if i :| 0 <= i < |certs| && RegistersPool(certs[i], p) && i < n {
      assert RegistersPool(certs[..n][i], p);
    }
  }

  lemma StagedAppend(certs: seq<ConwayCert>, cert: ConwayCert, p: PoolId, staged: Option<PoolParams>)
    ensures LastStaged(certs + [cert], p, staged)
         == if RegistersPool(cert, p) then Some(cert.params) else LastStaged(certs, p, staged)
  {
    assert (certs + [cert])[..|certs|] == certs;
  }

  lemma PoolAfterCert(s: CertState, cert: ConwayCert, keyDeposit: Coin, p: PoolId)
    requires ApplyConwayCert(s, cert, keyDeposit).Ok?
    ensures var t := ApplyConwayCert(s, cert, keyDeposit).value.pool;
      && (p in t.pools <==> p in s.pool.pools || RegistersPool(cert, p))
      && (p in s.pool.pools ==> t.pools[p] == s.pool.pools[p])
      && Lookup(t.futurePools, p)
         == (if RegistersPool(cert, p) && p in s.pool.pools then Some(cert.params) else Lookup(s.pool.futurePools, p))
      && Lookup(t.retiring, p)
         == (if RegistersPool(cert, p) then None
             else if cert.PoolRetirement? && cert.pool == p then Some(cert.epoch)
             else Lookup(s.pool.retiring, p))
  {
  }

  /** What any accepted list leaves of any pool, active at the start or not. */
  lemma {:induction false} PoolEntriesAfter(s: CertState, certs: seq<ConwayCert>, keyDeposit: Coin, p: PoolId)
    requires ApplyConwayCerts(s, certs, keyDeposit).Ok?
    ensures var t, active := ApplyConwayCerts(s, certs, keyDeposit).value.pool, p in s.pool.pools;
      && (p in t.pools <==> active || MentionsPool(certs, p))
      && Lookup(t.futurePools, p) == LastStaged(WhileActive(certs, p, active), p, Lookup(s.pool.futurePools, p))
      && Lookup(t.retiring, p) == SurvivingRetirement(certs, p, Lookup(s.pool.retiring, p))
  {
    hide ApplyConwayCert, MentionsPool, LastStaged;
    if certs == [] {
      NothingStaged(p, Lookup(s.pool.futurePools, p));
      NothingMentioned(p);
    } else {
      var n, active := |certs| - 1, p in s.pool.pools;
      PoolEntriesAfter(s, certs[..n], keyDeposit, p);
      PoolAfterCert(ApplyConwayCerts(s, certs[..n], keyDeposit).value, certs[n], keyDeposit, p);
      MentionsAppend(certs, p);
      StagedAppend(WhileActive(certs[..n], p, active), certs[n], p, Lookup(s.pool.futurePools, p));
      if !active && !MentionsPool(certs[..n], p) {
        Unreached(certs[..n], p);
        NothingStaged(p, Lookup(s.pool.futurePools, p));
      }
    }
  }

  lemma NothingStaged(p: PoolId, staged: Option<PoolParams>)
    ensures LastStaged([], p, staged) == staged
  {
  }

  lemma NothingMentioned(p: PoolId)
    ensures !MentionsPool([], p)
  {
  }

  lemma {:induction false} Unreached(certs: seq<ConwayCert>, p: PoolId)
    requires !MentionsPool(certs, p)
    ensures WhileActive(certs, p, false) == []
  {
    hide MentionsPool;
    if certs != [] {
      MentionsAppend(certs, p);
    }
  }

  /**
   Exactly when an accepted list leaves a pool both staged and retiring: it was staged
   already or registered again while active, and a retirement survives.
   */
  lemma StagedAndRetiringIff(s: CertState, certs: seq<ConwayCert>, keyDeposit: Coin, p: PoolId)
    requires ApplyConwayCerts(s, certs, keyDeposit).Ok?
    ensures var t := ApplyConwayCerts(s, certs, keyDeposit).value.pool;
      p in t.futurePools && p in t.retiring <==>
        && (p in s.pool.futurePools || MentionsPool(WhileActive(certs, p, p in s.pool.pools), p))
        && SurvivingRetirement(certs, p, Lookup(s.pool.retiring, p)).Some?
  {
    hide ApplyConwayCerts, SurvivingRetirement, WhileActive;
    PoolEntriesAfter(s, certs, keyDeposit, p);
    StagedIff(WhileActive(certs, p, p in s.pool.pools), p, Lookup(s.pool.futurePools, p));
  }

  lemma {:induction false} StagedIff(certs: seq<ConwayCert>, p: PoolId, staged: Option<PoolParams>)
    ensures LastStaged(certs, p, staged).Some? <==> staged.Some? || MentionsPool(certs, p)
  {
    hide MentionsPool;
    if certs == [] {
      NothingMentioned(p);
    } else {
      StagedIff(certs[..|certs| - 1], p, staged);
      MentionsAppend(certs, p);
    }
  }

  /**
   Staged and retiring pools need not be disjoint: register, re-register, retire
   puts one pool in both maps, due at the same boundary.
   */
  lemma StagedAndRetiringOverlap(p: PoolId, params: PoolParams, epoch: U64)
    ensures var none := CertState(DelegationState(map[], map[], map[]), PoolState(map[], map[], map[]));
      var r := ApplyConwayCerts(
        none, [PoolRegistration(p, params), PoolRegistration(p, params), PoolRetirement(p, epoch)], 0);
      r.Ok? && p in r.value.pool.futurePools && p in DuePools(r.value, epoch)
  {
    var none := CertState(DelegationState(map[], map[], map[]), PoolState(map[], map[], map[]));
    var reg := PoolRegistration(p, params);
    var certs := [reg, reg, PoolRetirement(p, epoch)];
    assert certs[..2] == [reg, reg] && [reg, reg][..1] == [reg];
    var s1 := RegisterPool(none, p, params);
    assert ApplyConwayCerts(none, [reg], 0) == Ok(s1);
    assert ApplyConwayCerts(none, [reg, reg], 0) == Ok(RegisterPool(s1, p, params));
  }
}
