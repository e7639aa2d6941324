/**
 A block's within-epoch effects (crates/ade_ledger/src/epoch_accumulator.rs and
 crates/ade_ledger/src/rules.rs): fees, donations, withdrawals, certificates and
 governance, each gated by phase-2 validity.
 */
module BlockScan {
  import opened LedgerTypes
  import opened Certificates
  import opened Votes

  datatype TxIn = TxIn(txHash: Hash32, index: nat)

  datatype Submitted = Submitted(deposit: Coin, returnAddress: seq<Byte>)

  /** The decoded fields of a transaction body that the walks read, and whether its map has indefinite length. */
  datatype TxBody = TxBody(
    txId: Hash32,
    indefinite: bool,
    fee: Option<Coin>,
    donation: Option<Coin>,
    withdrawals: seq<Credential>,
    certs: seq<ConwayCert>,
    collateralInputs: seq<TxIn>,
    collateralReturn: Option<Coin>,
    proposals: seq<Submitted>,
    ballots: seq<Ballot>)

  /** The UTxO authority's answer for one input. */
  type Resolver = TxIn -> Option<Coin>

  // Collateral.

  datatype CollateralError = Unresolved(txin: TxIn) | CollateralOverflow | ReturnExceedsCollateral

  function ResolvedTotal(inputs: seq<TxIn>, resolver: Resolver): Result<Coin, CollateralError> {
    if inputs == [] then
      Ok(0)
    else
      var n := |inputs| - 1;
      var total :- ResolvedTotal(inputs[..n], resolver);
      match resolver(inputs[n])
      case None => Err(Unresolved(inputs[n]))
      case Some(value) =>
        match CheckedAdd(total, value)
        case None => Err(CollateralOverflow)
        case Some(sum) => Ok(sum)
  }

  function Balance(inputs: seq<TxIn>, ret: Option<Coin>, resolver: Resolver): Result<Coin, CollateralError> {
    var total :- ResolvedTotal(inputs, resolver);
    match ret
    case None => Ok(total)
    case Some(r) => if r <= total then Ok(total - r) else Err(ReturnExceedsCollateral)
  }

  method CollateralBalance(inputs: seq<TxIn>, ret: Option<Coin>, resolver: Resolver)
    returns (r: Result<Coin, CollateralError>)
    ensures r == Balance(inputs, ret, resolver)
  {
    var total: Coin := 0;
    var n := 0;
    while n < |inputs|
      invariant 0 <= n <= |inputs|
      invariant ResolvedTotal(inputs[..n], resolver) == Ok(total)
    {
      assert inputs[..n + 1][..n] == inputs[..n];
      match resolver(inputs[n]) {
        case None =>
          FailsOnPrefix(inputs, n + 1, resolver);
          return Err(Unresolved(inputs[n]));
        case Some(value) =>
          match CheckedAdd(total, value) {
            case None =>
              FailsOnPrefix(inputs, n + 1, resolver);
              return Err(CollateralOverflow);
            case Some(sum) => total := sum;
          }
      }
      n := n + 1;
    }
    assert inputs[..n] == inputs;
    match ret {
      case None => return Ok(total);
      case Some(back) =>
        if back <= total {
          return Ok(total - back);
        }
        return Err(ReturnExceedsCollateral);
    }
  }

  /** A refusal on a prefix is the refusal of the whole. */
  lemma {:induction false} FailsOnPrefix(inputs: seq<TxIn>, n: nat, resolver: Resolver)
    requires n <= |inputs| && ResolvedTotal(inputs[..n], resolver).Err?
    ensures ResolvedTotal(inputs, resolver) == ResolvedTotal(inputs[..n], resolver)
    decreases |inputs|
  {
    if n == |inputs| {
      assert inputs[..n] == inputs;
    } else {
      var shorter := inputs[..|inputs| - 1];
      assert shorter[..n] == inputs[..n];
      FailsOnPrefix(shorter, n, resolver);
    }
  }

  /** `sum_collateral` over an ordered input set: unresolved inputs are skipped, additions saturate at 128 bits. */
  function SumCollateral(inputs: seq<TxIn>, utxo: map<TxIn, Coin>): nat {
    if inputs == [] then
      0
    else
      var n := |inputs| - 1;
      Min(SumCollateral(inputs[..n], utxo) + GetOr(utxo, inputs[n]), 0xFFFF_FFFF_FFFF_FFFF_FFFF_FFFF_FFFF_FFFF)
  }

  function UtxoResolver(utxo: map<TxIn, Coin>): Resolver {
    i => if i in utxo then Some(utxo[i]) else None
  }

  lemma {:induction false} TotalsAgree(inputs: seq<TxIn>, utxo: map<TxIn, Coin>)
    requires ResolvedTotal(inputs, UtxoResolver(utxo)).Ok?
    ensures SumCollateral(inputs, utxo) == ResolvedTotal(inputs, UtxoResolver(utxo)).value
  {
    if inputs != [] {
      TotalsAgree(inputs[..|inputs| - 1], utxo);
    }
  }

  /** The two collateral valuations agree: a balance plus its return is the checked sum. */
  lemma BalancePlusReturnIsSum(inputs: seq<TxIn>, ret: Option<Coin>, utxo: map<TxIn, Coin>)
    requires Balance(inputs, ret, UtxoResolver(utxo)).Ok?
    ensures Balance(inputs, ret, UtxoResolver(utxo)).value + (if ret.Some? then ret.value else 0)
         == SumCollateral(inputs, utxo)
  {
    TotalsAgree(inputs, utxo);
  }

  // What collateral is worth, over the integers.

  function Worth(inputs: seq<TxIn>, resolver: Resolver): nat {
    if inputs == [] then
      0
    else
      Worth(inputs[..|inputs| - 1], resolver) + OrZero(resolver(inputs[|inputs| - 1]))
  }

  predicate AllResolve(inputs: seq<TxIn>, resolver: Resolver) {
    forall i :: 0 <= i < |inputs| ==> resolver(inputs[i]).Some?
  }

  lemma {:induction false} TotalIsWorth(inputs: seq<TxIn>, resolver: Resolver)
    ensures ResolvedTotal(inputs, resolver).Ok? <==>
              AllResolve(inputs, resolver) && Worth(inputs, resolver) <= U64_MAX
    ensures ResolvedTotal(inputs, resolver).Ok? ==>
              ResolvedTotal(inputs, resolver).value == Worth(inputs, resolver)
  {
    if inputs != [] {
      var n := |inputs| - 1;
      TotalIsWorth(inputs[..n], resolver);
      assert AllResolve(inputs, resolver) <==> AllResolve(inputs[..n], resolver) && resolver(inputs[n]).Some?;
    }
  }

  /**
   Collateral has a balance if and only if every input resolves, together they fit in 64
   bits and cover the return; the balance is what they are worth less the return.
   */
  lemma BalanceIsWorth(inputs: seq<TxIn>, ret: Option<Coin>, resolver: Resolver)
    ensures Balance(inputs, ret, resolver).Ok? <==>
              AllResolve(inputs, resolver) && OrZero(ret) <= Worth(inputs, resolver) <= U64_MAX
    ensures Balance(inputs, ret, resolver).Ok? ==>
              Balance(inputs, ret, resolver).value == Worth(inputs, resolver) - OrZero(ret)
  {
    hide AllResolve;
    TotalIsWorth(inputs, resolver);
  }

  // The fee walk.

  datatype ScanError = NeedsUtxo(index: nat) | BadCollateral(error: CollateralError) | ScanOverflow

  datatype Totals = Totals(fees: Coin, donations: Coin, withdrawals: seq<Credential>)

  function OrZero(c: Option<Coin>): Coin {
    if c.Some? then c.value else 0
  }

  function ScanTx(
    t: Totals, tx: TxBody, index: nat, invalid: set<nat>, resolver: Option<Resolver>): Result<Totals, ScanError>
  {
    var donation := if index in invalid then 0 else OrZero(tx.donation);
    if CheckedAdd(t.donations, donation).None? then
      Err(ScanOverflow)
    else if index in invalid then
      if resolver.None? then
        Err(NeedsUtxo(index))
      else
        match Balance(tx.collateralInputs, tx.collateralReturn, resolver.value)
        case Err(e) => Err(BadCollateral(e))
        case Ok(balance) =>
          if CheckedAdd(t.fees, balance).None? then Err(ScanOverflow)
          else Ok(t.(fees := t.fees + balance, donations := t.donations + donation))
    else if CheckedAdd(t.fees, OrZero(tx.fee)).None? then
      Err(ScanOverflow)
    else
      Ok(Totals(t.fees + OrZero(tx.fee), t.donations + donation, t.withdrawals + tx.withdrawals))
  }

  function Scan(txs: seq<TxBody>, invalid: set<nat>, resolver: Option<Resolver>): Result<Totals, ScanError> {
    if txs == [] then
      Ok(Totals(0, 0, []))
    else
      var n := |txs| - 1;
      var t :- Scan(txs[..n], invalid, resolver);
      ScanTx(t, txs[n], n, invalid, resolver)
  }

  /** The transactions that are not discarded, in order. */
  function Kept(txs: seq<TxBody>, invalid: set<nat>): seq<TxBody> {
    if txs == [] then
      []
    else
      var n := |txs| - 1;
      Kept(txs[..n], invalid) + if n in invalid then [] else [txs[n]]
  }

  /** The declared fees of the kept transactions. */
  function DeclaredFees(txs: seq<TxBody>): nat {
    if txs == [] then 0 else DeclaredFees(txs[..|txs| - 1]) + OrZero(txs[|txs| - 1].fee)
  }

  function Donated(txs: seq<TxBody>): nat {
    if txs == [] then 0 else Donated(txs[..|txs| - 1]) + OrZero(txs[|txs| - 1].donation)
  }

  function Withdrawn(txs: seq<TxBody>): seq<Credential> {
    if txs == [] then [] else Withdrawn(txs[..|txs| - 1]) + txs[|txs| - 1].withdrawals
  }

  /** The collateral the discarded transactions give up: what their inputs resolve to, less the return. */
  function ForfeitedCollateral(txs: seq<TxBody>, invalid: set<nat>, resolver: Option<Resolver>): nat {
    if txs == [] then
      0
    else
      var n := |txs| - 1;
      ForfeitedCollateral(txs[..n], invalid, resolver) + if n in invalid then Forfeit(txs[n], resolver) else 0
  }

  function Forfeit(tx: TxBody, resolver: Option<Resolver>): nat {
    if resolver.None? then
      0
    else
      var balance := Balance(tx.collateralInputs, tx.collateralReturn, resolver.value);
      if balance.Ok? then balance.value else 0
  }

  lemma Append(txs: seq<TxBody>, tx: TxBody)
    ensures DeclaredFees(txs + [tx]) == DeclaredFees(txs) + OrZero(tx.fee)
    ensures Donated(txs + [tx]) == Donated(txs) + OrZero(tx.donation)
    ensures Withdrawn(txs + [tx]) == Withdrawn(txs) + tx.withdrawals
  {
    assert (txs + [tx])[..|txs|] == txs;
  }

  /**
   On every block it accepts, the walk charges the kept transactions' declared fees and
   the discarded ones' forfeited collateral, and collects the donations and withdrawals
   of the kept ones only.
   */
  lemma {:induction false} ScanSplitsByValidity(txs: seq<TxBody>, invalid: set<nat>, resolver: Option<Resolver>)
    requires Scan(txs, invalid, resolver).Ok?
    ensures var t, kept := Scan(txs, invalid, resolver).value, Kept(txs, invalid);
      && t.fees == DeclaredFees(kept) + ForfeitedCollateral(txs, invalid, resolver)
      && t.donations == Donated(kept)
      && t.withdrawals == Withdrawn(kept)
  {
    hide ScanTx, Forfeit, DeclaredFees, Donated, Withdrawn;
    if txs == [] {
      NothingScanned();
    } else {
      var n := |txs| - 1;
      ScanSplitsByValidity(txs[..n], invalid, resolver);
      ScanTxEffect(Scan(txs[..n], invalid, resolver).value, txs[n], n, invalid, resolver);
      Append(Kept(txs[..n], invalid), txs[n]);
      if n in invalid {
        assert Kept(txs, invalid) == Kept(txs[..n], invalid);
      }
    }
  }

  lemma NothingScanned()
    ensures DeclaredFees([]) == 0 && Donated([]) == 0 && Withdrawn([]) == []
  {
  }

  lemma ScanTxEffect(t: Totals, tx: TxBody, index: nat, invalid: set<nat>, resolver: Option<Resolver>)
    requires ScanTx(t, tx, index, invalid, resolver).Ok?
    ensures ScanTx(t, tx, index, invalid, resolver).value
         == if index in invalid then t.(fees := ScanTx(t, tx, index, invalid, resolver).value.fees)
            else Totals(t.fees + OrZero(tx.fee), t.donations + OrZero(tx.donation), t.withdrawals + tx.withdrawals)
    ensures index in invalid ==>
              ScanTx(t, tx, index, invalid, resolver).value.fees == t.fees + Forfeit(tx, resolver)
  {
  }

  /** A block with nothing discarded is accepted exactly when its totals fit in 64 bits. */
  lemma {:induction false} ScanWithoutInvalid(txs: seq<TxBody>, resolver: Option<Resolver>)
    ensures Scan(txs, {}, resolver).Ok? <==> DeclaredFees(txs) <= U64_MAX && Donated(txs) <= U64_MAX
    ensures Scan(txs, {}, resolver).Ok? ==>
              Scan(txs, {}, resolver).value == Totals(DeclaredFees(txs), Donated(txs), Withdrawn(txs))
  {
    if txs != [] {
      ScanWithoutInvalid(txs[..|txs| - 1], resolver);
    }
  }

  /** Every discarded transaction's collateral can be valued. */
  predicate Collectable(txs: seq<TxBody>, invalid: set<nat>, resolver: Option<Resolver>) {
    forall i :: 0 <= i < |txs| && i in invalid ==>
      && resolver.Some?
      && Balance(txs[i].collateralInputs, txs[i].collateralReturn, resolver.value).Ok?
  }

  /** A block is accepted if and only if what it discards can be valued and both totals fit in 64 bits. */
  lemma {:induction false} ScanAcceptedIff(txs: seq<TxBody>, invalid: set<nat>, resolver: Option<Resolver>)
    ensures Scan(txs, invalid, resolver).Ok? <==>
              && Collectable(txs, invalid, resolver)
              && DeclaredFees(Kept(txs, invalid)) + ForfeitedCollateral(txs, invalid, resolver) <= U64_MAX
              && Donated(Kept(txs, invalid)) <= U64_MAX
  {
    hide Balance, DeclaredFees, Donated, Withdrawn;
    if txs == [] {
      NothingScanned();
    } else {
      var n := |txs| - 1;
      ScanAcceptedIff(txs[..n], invalid, resolver);
      CollectableInParts(txs, invalid, resolver);
      Append(Kept(txs[..n], invalid), txs[n]);
      if n in invalid {
        assert Kept(txs, invalid) == Kept(txs[..n], invalid);
      }
      if Scan(txs[..n], invalid, resolver).Ok? {
        ScanSplitsByValidity(txs[..n], invalid, resolver);
      }
    }
  }

  lemma CollectableInParts(txs: seq<TxBody>, invalid: set<nat>, resolver: Option<Resolver>)
    requires txs != []
    ensures var n := |txs| - 1;
      Collectable(txs, invalid, resolver) <==>
        && Collectable(txs[..n], invalid, resolver)
        && (n in invalid ==>
              && resolver.Some?
              && Balance(txs[n].collateralInputs, txs[n].collateralReturn, resolver.value).Ok?)
  {
    hide Balance;
    var n := |txs| - 1;
    assert forall i :: 0 <= i < n ==> txs[..n][i] == txs[i];
  }

  /** So deleting the discarded transactions changes only the forfeited fees. */
  lemma DeletingInvalidKeepsTheRest(txs: seq<TxBody>, invalid: set<nat>, resolver: Option<Resolver>)
    requires Scan(txs, invalid, resolver).Ok?
    ensures var t, r := Scan(txs, invalid, resolver).value, Scan(Kept(txs, invalid), {}, resolver);
      && r.Ok? && r.value.donations == t.donations && r.value.withdrawals == t.withdrawals
      && r.value.fees + ForfeitedCollateral(txs, invalid, resolver) == t.fees
  {
    ScanSplitsByValidity(txs, invalid, resolver);
    ScanWithoutInvalid(Kept(txs, invalid), resolver);
  }

  /** One transaction of the walk: a discarded one is charged its collateral balance. */
  method ScanOne(t: Totals, tx: TxBody, index: nat, invalid: set<nat>, resolver: Option<Resolver>)
    returns (r: Result<Totals, ScanError>)
    ensures r == ScanTx(t, tx, index, invalid, resolver)
  {
    hide Balance;
    var donations := CheckedAdd(t.donations, if index in invalid then 0 else OrZero(tx.donation));
    if donations.None? {
      return Err(ScanOverflow);
    }
    if index !in invalid {
      match CheckedAdd(t.fees, OrZero(tx.fee))
      case None => return Err(ScanOverflow);
      case Some(fees) => return Ok(Totals(fees, donations.value, t.withdrawals + tx.withdrawals));
    }
    if resolver.None? {
      return Err(NeedsUtxo(index));
    }
    var balance := CollateralBalance(tx.collateralInputs, tx.collateralReturn, resolver.value);
    if balance.Err? {
      return Err(BadCollateral(balance.error));
    }
    match CheckedAdd(t.fees, balance.value)
    case None => return Err(ScanOverflow);
    case Some(fees) => return Ok(t.(fees := fees, donations := donations.value));
  }

  method ScanBlock(txs: seq<TxBody>, invalid: set<nat>, resolver: Option<Resolver>)
    returns (r: Result<Totals, ScanError>)
    ensures r == Scan(txs, invalid, resolver)
  {
    var t := Totals(0, 0, []);
    var n := 0;
    while n < |txs|
      invariant 0 <= n <= |txs|
      invariant Scan(txs[..n], invalid, resolver) == Ok(t)
    {
      assert txs[..n + 1][..n] == txs[..n];
      var next := ScanOne(t, txs[n], n, invalid, resolver);
      if next.Err? {
        ScanFailsOnPrefix(txs, n + 1, invalid, resolver);
        return next;
      }
      t := next.value;
      n := n + 1;
    }
    assert txs[..n] == txs;
    return Ok(t);
  }

  lemma {:induction false} ScanFailsOnPrefix(
    txs: seq<TxBody>, n: nat, invalid: set<nat>, resolver: Option<Resolver>)
    requires n <= |txs| && Scan(txs[..n], invalid, resolver).Err?
    ensures Scan(txs, invalid, resolver) == Scan(txs[..n], invalid, resolver)
    decreases |txs|
  {
    if n == |txs| {
      assert txs[..n] == txs;
    } else {
      var shorter := txs[..|txs| - 1];
      assert shorter[..n] == txs[..n];
      ScanFailsOnPrefix(shorter, n, invalid, resolver);
    }
  }
}
