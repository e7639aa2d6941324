/**
 The Conway balance check (crates/ade_ledger/src/conway.rs): certificates are swept
 for problems in list order, and then consumed and produced coin are compared in
 saturating 128-bit arithmetic.
 */
module ConwayBalance {
  import opened LedgerTypes
  import opened Sums
  import opened Certificates
  import opened Deposits
  import opened BlockScan

  const I128_MAX: int := 0x7FFF_FFFF_FFFF_FFFF_FFFF_FFFF_FFFF_FFFF

  /** The decoded parts of a transaction body that carry value. */
  datatype ConwayTx = ConwayTx(
    inputs: seq<TxIn>,
    withdrawals: map<seq<Byte>, Coin>,
    certs: seq<ConwayCert>,
    outputs: seq<Coin>,
    fee: Coin,
    donation: Option<Coin>)

  datatype BalanceError =
    | EraInvalid(index: nat, removedTag: U64)
    | RefundUnresolved
    | NotConserved(consumed: Coin, produced: Coin)

  // The value equation over unbounded integers.

  function InputTotal(inputs: seq<TxIn>, utxo: map<TxIn, Coin>): nat {
    if inputs == [] then 0 else InputTotal(inputs[..|inputs| - 1], utxo) + GetOr(utxo, inputs[|inputs| - 1])
  }

  function OutputTotal(outputs: seq<Coin>): nat {
    if outputs == [] then 0 else OutputTotal(outputs[..|outputs| - 1]) + outputs[|outputs| - 1]
  }

  function DepositOf(cert: ConwayCert, params: DepositParams, s: CertState): nat {
    match Classify(cert, params, s)
    case Ok(Accountable(NewDeposit(src))) => src.coin
    case _ => 0
  }

  function RefundOf(cert: ConwayCert, params: DepositParams, s: CertState): nat {
    match Classify(cert, params, s)
    case Ok(Accountable(Refund(src))) => src.coin
    case _ => 0
  }

  function NewDeposits(certs: seq<ConwayCert>, params: DepositParams, s: CertState): nat {
    if certs == [] then
      0
    else
      NewDeposits(certs[..|certs| - 1], params, s) + DepositOf(certs[|certs| - 1], params, s)
  }

  function Refunds(certs: seq<ConwayCert>, params: DepositParams, s: CertState): nat {
    if certs == [] then 0 else Refunds(certs[..|certs| - 1], params, s) + RefundOf(certs[|certs| - 1], params, s)
  }

  ghost function Withdrawn(tx: ConwayTx): nat {
    SumBounds(tx.withdrawals);
    Sum(tx.withdrawals)
  }

  ghost function Consumed(tx: ConwayTx, utxo: map<TxIn, Coin>, params: DepositParams, s: CertState): nat {
    InputTotal(tx.inputs, utxo) + Withdrawn(tx) + Refunds(tx.certs, params, s)
  }

  ghost function Produced(tx: ConwayTx, params: DepositParams, s: CertState): nat {
    OutputTotal(tx.outputs) + tx.fee + OrZero(tx.donation) + NewDeposits(tx.certs, params, s)
  }

  // The sweep.

  function ProblemAt(certs: seq<ConwayCert>, i: nat, params: DepositParams, s: CertState): Option<BalanceError>
    requires i < |certs|
  {
    match Classify(certs[i], params, s)
    case Err(_) => Some(RefundUnresolved)
    case Ok(NotValidInConway) =>
      if certs[i].RemovedInConway? then Some(EraInvalid(i % 0x1_0000, certs[i].tag)) else None
    case _ => None
  }

  /** `e` is the first problem in list order, or there is none. */
  ghost predicate FirstProblem(
    certs: seq<ConwayCert>, params: DepositParams, s: CertState, e: Option<BalanceError>)
  {
    match e
    case None => forall i :: 0 <= i < |certs| ==> ProblemAt(certs, i, params, s).None?
    case Some(_) =>
      exists i :: 0 <= i < |certs| && ProblemAt(certs, i, params, s) == e
        && forall j :: 0 <= j < i ==> ProblemAt(certs, j, params, s).None?
  }

  method SweepCerts(certs: seq<ConwayCert>, params: DepositParams, s: CertState) returns (e: Option<BalanceError>)
    ensures FirstProblem(certs, params, s, e)
  {
    for i := 0 to |certs|
      invariant forall j :: 0 <= j < i ==> ProblemAt(certs, j, params, s).None?
    {
      var disposition := Classify(certs[i], params, s);
      if disposition.Err? {
        assert ProblemAt(certs, i, params, s) == Some(RefundUnresolved);
        return Some(RefundUnresolved);
      }
      if disposition.value.NotValidInConway? {
        e := Some(EraInvalid(i % 0x1_0000, certs[i].tag));
        assert ProblemAt(certs, i, params, s) == e;
        return;
      }
    }
    return None;
  }

  // The saturating sums.

  function SatAdd128(a: nat, b: nat): nat {
    Min(a + b, I128_MAX)
  }

  method FoldDeposits(certs: seq<ConwayCert>, params: DepositParams, s: CertState)
    returns (deposits: nat, refunds: nat)
    ensures deposits == Min(NewDeposits(certs, params, s), I128_MAX)
    ensures refunds == Min(Refunds(certs, params, s), I128_MAX)
  {
    deposits, refunds := 0, 0;
    for i := 0 to |certs|
      invariant deposits == Min(NewDeposits(certs[..i], params, s), I128_MAX)
      invariant refunds == Min(Refunds(certs[..i], params, s), I128_MAX)
    {
      assert certs[..i + 1][..i] == certs[..i];
      match Classify(certs[i], params, s) {
        case Ok(Accountable(NewDeposit(src))) => deposits := SatAdd128(deposits, src.coin);
        case Ok(Accountable(Refund(src))) => refunds := SatAdd128(refunds, src.coin);
        case _ =>
      }
    }
    assert certs[..|certs|] == certs;
  }

  method SumInputs(inputs: seq<TxIn>, utxo: map<TxIn, Coin>) returns (total: nat)
    ensures total == Min(InputTotal(inputs, utxo), I128_MAX)
  {
    total := 0;
    for i := 0 to |inputs|
      invariant total == Min(InputTotal(inputs[..i], utxo), I128_MAX)
    {
      assert inputs[..i + 1][..i] == inputs[..i];
      if inputs[i] in utxo {
        total := SatAdd128(total, utxo[inputs[i]]);
      }
    }
    assert inputs[..|inputs|] == inputs;
  }

  method SumOutputs(start: Coin, outputs: seq<Coin>) returns (total: nat)
    ensures total == Min(start + OutputTotal(outputs), I128_MAX)
  {
    total := start;
    for i := 0 to |outputs|
      invariant total == Min(start + OutputTotal(outputs[..i]), I128_MAX)
    {
      assert outputs[..i + 1][..i] == outputs[..i];
      total := SatAdd128(total, outputs[i]);
    }
    assert outputs[..|outputs|] == outputs;
  }

  method SumWithdrawals(withdrawals: map<seq<Byte>, Coin>) returns (total: nat)
    ensures total == Sum(withdrawals)
  {
    total := 0;
    var remaining := withdrawals.Keys;
    ghost var done: map<seq<Byte>, int> := map[];
    while remaining != {}
      invariant remaining <= withdrawals.Keys && done == withdrawals - remaining
      invariant total == Sum(done)
    {
      var k :| k in remaining;
      SumUpdate(done, k, withdrawals[k]);
      remaining := remaining - {k};
      done := done[k := withdrawals[k]];
      total := total + withdrawals[k];
      assert done == withdrawals - remaining;
    }
    assert done == withdrawals;
  }

  /** The lists a transaction of any realistic size stays far below. */
  ghost predicate Bounded(tx: ConwayTx) {
    |tx.inputs| <= 0x1000_0000_0000_0000 && |tx.outputs| <= 0x1000_0000_0000_0000
    && |tx.certs| <= 0x1000_0000_0000_0000 && |tx.withdrawals| <= 0x1000_0000_0000_0000
  }

  lemma {:induction false} InputTotalBound(inputs: seq<TxIn>, utxo: map<TxIn, Coin>)
    ensures InputTotal(inputs, utxo) <= |inputs| * U64_MAX
  {
    if inputs != [] {
      InputTotalBound(inputs[..|inputs| - 1], utxo);
    }
  }

  lemma {:induction false} OutputTotalBound(outputs: seq<Coin>)
    ensures OutputTotal(outputs) <= |outputs| * U64_MAX
  {
    if outputs != [] {
      OutputTotalBound(outputs[..|outputs| - 1]);
    }
  }

  lemma {:induction false} DepositsBound(certs: seq<ConwayCert>, params: DepositParams, s: CertState)
    ensures NewDeposits(certs, params, s) <= |certs| * U64_MAX && Refunds(certs, params, s) <= |certs| * U64_MAX
  {
    hide Classify;
    if certs != [] {
      DepositsBound(certs[..|certs| - 1], params, s);
    }
  }

  lemma WithdrawnBound(withdrawals: map<seq<Byte>, Coin>)
    ensures Sum(withdrawals) <= |withdrawals| * U64_MAX
  {
    SumAtMost(withdrawals, U64_MAX);
  }

  /** Under the length bounds no 128-bit sum saturates. */
  lemma NothingSaturates(tx: ConwayTx, utxo: map<TxIn, Coin>, params: DepositParams, s: CertState)
    requires Bounded(tx)
    ensures Consumed(tx, utxo, params, s) <= I128_MAX && Produced(tx, params, s) <= I128_MAX
  {
    hide InputTotal, OutputTotal, NewDeposits, Refunds;
    InputTotalBound(tx.inputs, utxo);
    OutputTotalBound(tx.outputs);
    DepositsBound(tx.certs, params, s);
    WithdrawnBound(tx.withdrawals);
  }

  /**
   `check_conway_coin_conservation`. A certificate problem is reported before any value
   mismatch, the first one in list order; otherwise a bounded transaction is accepted
   exactly when inputs, withdrawals and refunds equal outputs, fee, donation and new
   deposits over the integers.
   */
  method CheckConservation(tx: ConwayTx, utxo: map<TxIn, Coin>, params: DepositParams, s: CertState)
    returns (r: Option<BalanceError>)
    ensures exists p :: FirstProblem(tx.certs, params, s, p) && (p.Some? ==> r == p)
    ensures FirstProblem(tx.certs, params, s, None) ==>
              && (r == None <==>
                    Min(Consumed(tx, utxo, params, s), I128_MAX) == Min(Produced(tx, params, s), I128_MAX))
              && (r.Some? ==> r == Some(NotConserved(Min(Consumed(tx, utxo, params, s), U64_MAX),
                                                     Min(Produced(tx, params, s), U64_MAX))))
    ensures Bounded(tx) && FirstProblem(tx.certs, params, s, None) ==>
              (r == None <==> Consumed(tx, utxo, params, s) == Produced(tx, params, s))
  {
    hide Classify, FirstProblem, Consumed, Produced, InputTotal, OutputTotal, NewDeposits, Refunds;
    var withdrawals := SumWithdrawals(tx.withdrawals);
    var problem := SweepCerts(tx.certs, params, s);
    if problem.Some? {
      OnlyOneFirst(tx.certs, params, s, problem);
      return problem;
    }
    var deposits, refunds := FoldDeposits(tx.certs, params, s);
    var consumed := SumInputs(tx.inputs, utxo);
    consumed := SatAdd128(consumed, withdrawals);
    consumed := SatAdd128(consumed, refunds);
    var produced := SumOutputs(tx.fee, tx.outputs);
    if tx.donation.Some? {
      produced := SatAdd128(produced, tx.donation.value);
    }
    produced := SatAdd128(produced, deposits);
    EquationTerms(tx, utxo, params, s);
    if consumed != produced {
      return Some(NotConserved(Min(consumed, U64_MAX), Min(produced, U64_MAX)));
    }
    return None;
  }

  lemma OnlyOneFirst(certs: seq<ConwayCert>, params: DepositParams, s: CertState, p: Option<BalanceError>)
    requires FirstProblem(certs, params, s, p) && p.Some?
    ensures !FirstProblem(certs, params, s, None)
  {
  }

  lemma EquationTerms(tx: ConwayTx, utxo: map<TxIn, Coin>, params: DepositParams, s: CertState)
    ensures Consumed(tx, utxo, params, s)
         == InputTotal(tx.inputs, utxo) + Sum(tx.withdrawals) + Refunds(tx.certs, params, s)
    ensures Produced(tx, params, s)
         == OutputTotal(tx.outputs) + tx.fee + OrZero(tx.donation) + NewDeposits(tx.certs, params, s)
    ensures Bounded(tx) ==> Consumed(tx, utxo, params, s) <= I128_MAX && Produced(tx, params, s) <= I128_MAX
  {
    if Bounded(tx) {
      NothingSaturates(tx, utxo, params, s);
    }
  }

  // The equation against what the ledger records.

  /** Deposits of registering DReps less refunds of unregistering ones, as the certificates carry them. */
  function DRepDeposits(certs: seq<ConwayCert>): int {
    if certs == [] then
      0
    else
      DRepDeposits(certs[..|certs| - 1])
      + match certs[|certs| - 1] {
          case DRepRegistration(_, deposit) => deposit as int
          case DRepUnregistration(_, refund) => 0 - refund
          case _ => 0
        }
  }

  /** Every deposit or refund belongs to an account, a pool or a DRep. */
  lemma {:induction false} DepositsByOwner(certs: seq<ConwayCert>, params: DepositParams, s: CertState)
    ensures NewDeposits(certs, params, s) - Refunds(certs, params, s)
         == KeyDeposits(certs, params, s) + PoolDeposits(certs, params, s) + DRepDeposits(certs)
  {
    if certs != [] {
      DepositsByOwner(certs[..|certs| - 1], params, s);
    }
  }

  /**
   A transaction balances if and only if it pays for what the ledger then records: the
   growth of the account deposits, one deposit a new pool and the DReps' deposits, where
   an explicit refund may exceed what was recorded.
   */
  lemma BalanceIsRecorded(tx: ConwayTx, utxo: map<TxIn, Coin>, params: DepositParams, start: CertState)
    requires ApplyConwayCerts(start, tx.certs, params.keyDeposit).Ok? && AtMostOnce(tx.certs)
    ensures var end := ApplyConwayCerts(start, tx.certs, params.keyDeposit).value;
      Consumed(tx, utxo, params, start) == Produced(tx, params, start) <==>
        InputTotal(tx.inputs, utxo) + Sum(tx.withdrawals) + RefundExcess(tx.certs, start)
        == OutputTotal(tx.outputs) + tx.fee + OrZero(tx.donation) + DRepDeposits(tx.certs)
           + (Sum(end.delegation.registrations) - Sum(start.delegation.registrations))
           + params.poolDeposit * (|end.pool.pools| - |start.pool.pools|)
  {
    hide InputTotal, OutputTotal, NewDeposits, Refunds, KeyDeposits, PoolDeposits, DRepDeposits, RefundExcess;
    hide ApplyConwayCerts, AtMostOnce;
    DepositsByOwner(tx.certs, params, start);
    DepositAuthoritiesAgree(start, tx.certs, params);
  }

  // Precedence between the two certificate problems.

  /**
   The first removed tag is reported exactly when no refund before it is unresolved;
   a sweep that stops at an unresolved refund never reaches it.
   */
  lemma RemovedTagReportedIff(certs: seq<ConwayCert>, params: DepositParams, s: CertState, i: nat)
    requires i < |certs| && certs[i].RemovedInConway?
    requires forall j :: 0 <= j < i ==> !certs[j].RemovedInConway?
    ensures FirstProblem(certs, params, s, Some(EraInvalid(i % 0x1_0000, certs[i].tag))) <==>
              forall j :: 0 <= j < i ==> Classify(certs[j], params, s).Ok?
  {
    var e := Some(EraInvalid(i % 0x1_0000, certs[i].tag));
    assert ProblemAt(certs, i, params, s) == e;
    if forall j :: 0 <= j < i ==> Classify(certs[j], params, s).Ok? {
      forall j | 0 <= j < i
        ensures ProblemAt(certs, j, params, s).None?
      {
        assert Classify(certs[j], params, s).Ok?;
      }
    } else {
      var j :| 0 <= j < i && Classify(certs[j], params, s).Err?;
      assert ProblemAt(certs, j, params, s) == Some(RefundUnresolved);
      forall k | 0 <= k < i
        ensures ProblemAt(certs, k, params, s) != e
      {
      }
    }
  }

  /** A removed tag behind an unresolved refund is masked by it. */
  lemma RemovedTagCanBeMasked(c: Credential, params: DepositParams)
    ensures var s := CertState(DelegationState(map[], map[], map[]), PoolState(map[], map[], map[]));
      FirstProblem([AccountUnregistration(c), RemovedInConway(5)], params, s, Some(RefundUnresolved))
  {
    var s := CertState(DelegationState(map[], map[], map[]), PoolState(map[], map[], map[]));
    assert ProblemAt([AccountUnregistration(c), RemovedInConway(5)], 0, params, s) == Some(RefundUnresolved);
  }
}
