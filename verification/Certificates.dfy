/**
 The certificate state machine of crates/ade_ledger/src/delegation.rs: stake
 registrations and delegations, pool registrations with staged updates,
 retirements, and the epoch-boundary pool reap.
 */
module Certificates {
  import opened LedgerTypes

  datatype DelegationState = DelegationState(
    registrations: map<Credential, Coin>,
    delegations: map<Credential, PoolId>,
    rewards: map<Credential, Coin>)

  datatype PoolState = PoolState(
    pools: map<PoolId, PoolParams>,
    futurePools: map<PoolId, PoolParams>,
    retiring: map<PoolId, U64>)

  datatype CertState = CertState(delegation: DelegationState, pool: PoolState)

  datatype DRep = DRepKey(hash: Hash28) | DRepScript(hash: Hash28) | AlwaysAbstain | AlwaysNoConfidence

  datatype ConwayCert =
    | AccountRegistration(credential: Credential)
    | AccountUnregistration(credential: Credential)
    | StakeDelegation(credential: Credential, pool: PoolId)
    | PoolRegistration(pool: PoolId, params: PoolParams)
    | PoolRetirement(pool: PoolId, epoch: U64)
    | RemovedInConway(tag: U64)
    | AccountRegistrationDeposit(credential: Credential, deposit: Coin)
    | AccountUnregistrationDeposit(credential: Credential, refund: Coin)
    | VoteDelegation(credential: Credential, drep: DRep)
    | StakeVoteDelegation(credential: Credential, pool: PoolId, drep: DRep)
    | StakeRegistrationDelegation(credential: Credential, pool: PoolId, deposit: Coin)
    | VoteRegistrationDelegation(credential: Credential, drep: DRep, deposit: Coin)
    | StakeVoteRegistrationDelegation(credential: Credential, pool: PoolId, drep: DRep, deposit: Coin)
    | AuthCommitteeHot(cold: Credential, hot: Credential)
    | ResignCommitteeCold(cold: Credential)
    | DRepRegistration(drepCredential: Credential, deposit: Coin)
    | DRepUnregistration(drepCredential: Credential, refund: Coin)
    | DRepUpdate(drepCredential: Credential)

  datatype ShelleyCert =
    | ShelleyRegistration(credential: Credential)
    | ShelleyDeregistration(credential: Credential)
    | ShelleyDelegation(credential: Credential, pool: PoolId)
    | ShelleyPoolRegistration(pool: PoolId, params: PoolParams)
    | ShelleyPoolRetirement(pool: PoolId, epoch: U64)
    | GenesisKeyDelegation
    | MIRTransfer

  datatype CertFailure =
    | StakeAlreadyRegistered
    | StakeNotRegistered
    | PoolNotRegistered
    | EraInvalidCertificate(tag: U64)

  type CertResult = Result<CertState, CertFailure>

  // The shared single-certificate transitions.

  function RegisterStake(s: CertState, c: Credential, deposit: Coin): CertResult {
    if c in s.delegation.registrations then
      Err(StakeAlreadyRegistered)
    else
      Ok(s.(delegation := s.delegation.(
        registrations := s.delegation.registrations[c := deposit],
        rewards := s.delegation.rewards[c := 0])))
  }

  function DeregisterStake(s: CertState, c: Credential): CertResult {
    if c !in s.delegation.registrations then
      Err(StakeNotRegistered)
    else
      Ok(s.(delegation := DelegationState(
        s.delegation.registrations - {c}, s.delegation.delegations - {c}, s.delegation.rewards - {c})))
  }

  function DelegateStake(s: CertState, c: Credential, p: PoolId): CertResult {
    if c !in s.delegation.registrations then
      Err(StakeNotRegistered)
    else if p !in s.pool.pools then
      Err(PoolNotRegistered)
    else
      Ok(s.(delegation := s.delegation.(delegations := s.delegation.delegations[c := p])))
  }

  /** A first registration is active at once; a re-registration is staged. Either cancels a retirement. */
  function RegisterPool(s: CertState, p: PoolId, params: PoolParams): CertState {
    var pool := s.pool.(retiring := s.pool.retiring - {p});
    if p in s.pool.pools then
      s.(pool := pool.(futurePools := pool.futurePools[p := params]))
    else
      s.(pool := pool.(pools := pool.pools[p := params]))
  }

  function RetirePool(s: CertState, p: PoolId, epoch: U64): CertResult {
    if p !in s.pool.pools then
      Err(PoolNotRegistered)
    else
      Ok(s.(pool := s.pool.(retiring := s.pool.retiring[p := epoch])))
  }

  function ApplyConwayCert(s: CertState, cert: ConwayCert, keyDeposit: Coin): CertResult {
    match cert
    case AccountRegistration(c) => RegisterStake(s, c, keyDeposit)
    case AccountRegistrationDeposit(c, deposit) => RegisterStake(s, c, deposit)
    case AccountUnregistration(c) => DeregisterStake(s, c)
    case AccountUnregistrationDeposit(c, _) => DeregisterStake(s, c)
    case StakeDelegation(c, p) => DelegateStake(s, c, p)
    case PoolRegistration(p, params) => Ok(RegisterPool(s, p, params))
    case PoolRetirement(p, e) => RetirePool(s, p, e)
    case StakeRegistrationDelegation(c, p, deposit) =>
      var r :- RegisterStake(s, c, deposit);
      DelegateStake(r, c, p)
    case StakeVoteDelegation(c, p, _) => DelegateStake(s, c, p)
    case VoteRegistrationDelegation(c, _, deposit) => RegisterStake(s, c, deposit)
    case StakeVoteRegistrationDelegation(c, p, _, deposit) =>
      var r :- RegisterStake(s, c, deposit);
      DelegateStake(r, c, p)
    case RemovedInConway(tag) => Err(EraInvalidCertificate(tag))
    case _ => Ok(s)
  }

  function ApplyShelleyCert(s: CertState, cert: ShelleyCert, keyDeposit: Coin): CertResult {
    match cert
    case ShelleyRegistration(c) => RegisterStake(s, c, keyDeposit)
    case ShelleyDeregistration(c) => DeregisterStake(s, c)
    case ShelleyDelegation(c, p) => DelegateStake(s, c, p)
    case ShelleyPoolRegistration(p, params) => Ok(RegisterPool(s, p, params))
    case ShelleyPoolRetirement(p, e) => RetirePool(s, p, e)
    case _ => Ok(s)
  }

  function ApplyConwayCerts(s: CertState, certs: seq<ConwayCert>, keyDeposit: Coin): CertResult {
    if certs == [] then
      Ok(s)
    else
      var s' :- ApplyConwayCerts(s, certs[..|certs| - 1], keyDeposit);
      ApplyConwayCert(s', certs[|certs| - 1], keyDeposit)
  }

  // Boundary and reward effects.

  function DuePools(s: CertState, epoch: U64): set<PoolId> {
    set p | p in s.pool.retiring && s.pool.retiring[p] == epoch
  }

  function Adopt(s: CertState): CertState {
    s.(pool := s.pool.(
      pools := map p | p in s.pool.pools ::
        if p in s.pool.futurePools then s.pool.futurePools[p] else s.pool.pools[p],
      futurePools := map[]))
  }

  function RemoveDue(s: CertState, due: set<PoolId>): CertState {
    CertState(
      s.delegation.(delegations :=
        map c | c in s.delegation.delegations && s.delegation.delegations[c] !in due ::
          s.delegation.delegations[c]),
      s.pool.(pools := s.pool.pools - due, retiring := s.pool.retiring - due))
  }

  /** `apply_pool_reap`: adopt staged registrations, then reap the pools due at exactly this epoch. */
  function Reap(s: CertState, epoch: U64): CertState {
    RemoveDue(Adopt(s), DuePools(s, epoch))
  }

  /** `apply_bootstrap_reward_deltas`, refusing any balance that would overflow. */
  function AddRewards(rewards: map<Credential, Coin>, delta: map<Credential, Coin>): Option<map<Credential, Coin>> {
    if forall c | c in delta :: GetOr(rewards, c) + delta[c] <= U64_MAX then
      Some(map c | c in rewards.Keys + delta.Keys ::
        if c in delta then GetOr(rewards, c) + delta[c] else rewards[c])
    else
      None
  }

  function WithRewards(s: CertState, rewards: map<Credential, Coin>): CertState {
    s.(delegation := s.delegation.(rewards := rewards))
  }

  function Withdraw(s: CertState, c: Credential): CertState {
    if c in s.delegation.rewards then WithRewards(s, s.delegation.rewards[c := 0]) else s
  }

  /** The certificate state held in place, as the boundary mutates it. */
  class CertLedger {
    var state: CertState

    constructor (initial: CertState)
      ensures state == initial
    {
      state := initial;
    }

    method ApplyPoolReap(enteredEpoch: U64)
      modifies this
      ensures state == Reap(old(state), enteredEpoch)
    {
      var adopted := state.pool.futurePools;
      state := state.(pool := state.pool.(futurePools := map[]));
      ghost var start := state;
      var remaining := adopted.Keys;
      while remaining != {}
        invariant remaining <= adopted.Keys
        invariant state.delegation == start.delegation
        invariant state.pool.retiring == start.pool.retiring && state.pool.futurePools == map[]
        invariant state.pool.pools.Keys == start.pool.pools.Keys
        invariant forall p :: p in state.pool.pools ==>
          state.pool.pools[p] == if p in adopted && p !in remaining then adopted[p] else start.pool.pools[p]
      {
        var p :| p in remaining;
        remaining := remaining - {p};
        if p in state.pool.pools {
          state := state.(pool := state.pool.(pools := state.pool.pools[p := adopted[p]]));
        }
      }
      assert state == Adopt(old(state));
      var retired := DuePools(state, enteredEpoch);
      if retired != {} {
        state := state.(delegation := state.delegation.(delegations :=
          map c | c in state.delegation.delegations && state.delegation.delegations[c] !in retired ::
            state.delegation.delegations[c]));
      }
      state := state.(pool := state.pool.(
        pools := state.pool.pools - retired, retiring := state.pool.retiring - retired));
    }

    method ApplyBootstrapRewardDeltas(delta: map<Credential, Coin>) returns (ok: bool)
      modifies this
      ensures ok <==> AddRewards(old(state).delegation.rewards, delta).Some?
      ensures ok ==> state == WithRewards(old(state), AddRewards(old(state).delegation.rewards, delta).value)
    {
      ghost var start := state;
      var remaining := delta.Keys;
      while remaining != {}
        invariant remaining <= delta.Keys
        invariant state == WithRewards(start, state.delegation.rewards)
        invariant state.delegation.rewards.Keys == start.delegation.rewards.Keys + (delta.Keys - remaining)
        invariant forall c :: c in state.delegation.rewards ==>
          state.delegation.rewards[c]
            == if c in delta && c !in remaining then GetOr(start.delegation.rewards, c) + delta[c]
               else start.delegation.rewards[c]
        invariant forall c :: c in delta && c !in remaining ==> GetOr(start.delegation.rewards, c) + delta[c] <= U64_MAX
      {
        var c :| c in remaining;
        match CheckedAdd(GetOr(state.delegation.rewards, c), delta[c])
        case None =>
          return false;
        case Some(balance) =>
          state := WithRewards(state, state.delegation.rewards[c := balance]);
          remaining := remaining - {c};
      }
      return true;
    }
  }
}
