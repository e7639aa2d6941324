/**
 Byron block application (crates/ade_ledger/src/byron.rs). Input and output indices are
 truncated to 16 bits, as the source casts them.
 */
module Byron {
  import opened LedgerTypes
  import opened Sums
  import opened BlockScan

  type Utxo = map<TxIn, Coin>

  datatype ByronIn = ByronIn(txHash: Hash32, index: nat)

  /** `witnessed` is the verdict of the signature checks, `size` the wire length. */
  datatype ByronTx = ByronTx(
    inputs: seq<ByronIn>,
    outputs: seq<Coin>,
    txId: Hash32,
    size: U64,
    witnessed: bool)

  datatype FeeParams = FeeParams(minFeeA: Coin, minFeeB: Coin)

  datatype ByronError = DuplicateInput | InputNotFound | Conservation | InsufficientFee | BadWitness

  function Key(i: ByronIn): TxIn {
    TxIn(i.txHash, i.index % 0x1_0000)
  }

  function OutputKey(tx: ByronTx, n: nat): TxIn {
    TxIn(tx.txId, n % 0x1_0000)
  }

  function Keys(inputs: seq<ByronIn>): set<TxIn> {
    set i | i in inputs :: Key(i)
  }

  predicate Distinct(inputs: seq<ByronIn>) {
    forall i, j :: 0 <= i < j < |inputs| ==> Key(inputs[i]) != Key(inputs[j])
  }

  method CheckDuplicates(inputs: seq<ByronIn>) returns (ok: bool)
    ensures ok <==> Distinct(inputs)
  {
    var seen: set<TxIn> := {};
    for n := 0 to |inputs|
      invariant seen == Keys(inputs[..n]) && Distinct(inputs[..n])
    {
      assert inputs[..n + 1] == inputs[..n] + [inputs[n]];
      if Key(inputs[n]) in seen {
        var i :| 0 <= i < n && Key(inputs[..n][i]) == Key(inputs[n]);
        return false;
      }
      assert Keys(inputs[..n + 1]) == seen + {Key(inputs[n])};
      seen := seen + {Key(inputs[n])};
    }
    assert inputs[..|inputs|] == inputs;
    return true;
  }

  // Spending.

  function Resolve(utxo: Utxo, inputs: seq<ByronIn>): Result<(Utxo, Coin), ByronError> {
    if inputs == [] then
      Ok((utxo, 0))
    else
      var n := |inputs| - 1;
      var r :- Resolve(utxo, inputs[..n]);
      var key := Key(inputs[n]);
      if key !in r.0 then Err(InputNotFound)
      else if CheckedAdd(r.1, r.0[key]).None? then Err(Conservation)
      else Ok((r.0 - {key}, r.1 + r.0[key]))
  }

  method ResolveInputs(utxo: Utxo, inputs: seq<ByronIn>) returns (r: Result<(Utxo, Coin), ByronError>)
    ensures r == Resolve(utxo, inputs)
  {
    var state, consumed: Coin := utxo, 0;
    for n := 0 to |inputs|
      invariant Resolve(utxo, inputs[..n]) == Ok((state, consumed))
    {
      assert inputs[..n + 1][..n] == inputs[..n];
      var key := Key(inputs[n]);
      if key !in state {
        ResolveRefusalIsFinal(utxo, inputs, n + 1);
        return Err(InputNotFound);
      }
      match CheckedAdd(consumed, state[key])
      case None =>
        ResolveRefusalIsFinal(utxo, inputs, n + 1);
        return Err(Conservation);
      case Some(total) =>
        state, consumed := state - {key}, total;
    }
    assert inputs[..|inputs|] == inputs;
    return Ok((state, consumed));
  }

  lemma {:induction false} ResolveRefusalIsFinal(utxo: Utxo, inputs: seq<ByronIn>, n: nat)
    requires n <= |inputs| && Resolve(utxo, inputs[..n]).Err?
    ensures Resolve(utxo, inputs) == Resolve(utxo, inputs[..n])
    decreases |inputs|
  {
    if n == |inputs| {
      assert inputs[..n] == inputs;
    } else {
      var shorter := inputs[..|inputs| - 1];
      assert shorter[..n] == inputs[..n];
      ResolveRefusalIsFinal(utxo, shorter, n);
    }
  }

  lemma KeysAppend(inputs: seq<ByronIn>)
    requires inputs != []
    ensures var n := |inputs| - 1;
      && Keys(inputs) == Keys(inputs[..n]) + {Key(inputs[n])}
      && (Distinct(inputs[..n]) && Key(inputs[n]) !in Keys(inputs[..n]) ==> Distinct(inputs))
  {
    var n := |inputs| - 1;
    assert inputs == inputs[..n] + [inputs[n]];
    forall i | 0 <= i < n
      ensures Key(inputs[i]) in Keys(inputs[..n])
    {
      assert inputs[..n][i] == inputs[i];
    }
  }

  /** Every input was live, no two are the same, they are gone, and their coin is what was consumed. */
  lemma {:induction false} ResolveSpends(utxo: Utxo, inputs: seq<ByronIn>)
    requires Resolve(utxo, inputs).Ok?
    ensures var r := Resolve(utxo, inputs).value;
      && r.0 == utxo - Keys(inputs) && Keys(inputs) <= utxo.Keys && Distinct(inputs)
      && Sum(utxo) == Sum(r.0) + r.1
  {
    if inputs == [] {
      assert utxo - Keys(inputs) == utxo;
    } else {
      hide Keys, Distinct, Key;
      var n := |inputs| - 1;
      ResolveSpends(utxo, inputs[..n]);
      KeysAppend(inputs);
      var before := Resolve(utxo, inputs[..n]).value.0;
      SumRemove(before, Key(inputs[n]));
      assert utxo - Keys(inputs) == before - {Key(inputs[n])};
    }
  }

  // Producing.

  function OutputsValue(outputs: seq<Coin>): Option<Coin> {
    if outputs == [] then
      Some(0)
    else
      match OutputsValue(outputs[..|outputs| - 1])
      case None => None
      case Some(total) => CheckedAdd(total, outputs[|outputs| - 1])
  }

  method ComputeOutputsValue(outputs: seq<Coin>) returns (r: Option<Coin>)
    ensures r == OutputsValue(outputs)
  {
    r := Some(0);
    for n := 0 to |outputs|
      invariant r == OutputsValue(outputs[..n])
    {
      assert outputs[..n + 1][..n] == outputs[..n];
      if r.Some? {
        r := CheckedAdd(r.value, outputs[n]);
      }
    }
    assert outputs[..|outputs|] == outputs;
  }

  function InsertOutputs(utxo: Utxo, tx: ByronTx, n: nat): Utxo
    requires n <= |tx.outputs|
  {
    if n == 0 then utxo else InsertOutputs(utxo, tx, n - 1)[OutputKey(tx, n - 1) := tx.outputs[n - 1]]
  }

  /** The coin that insertions replace: earlier outputs of the same index, or entries already there. */
  function Overwritten(utxo: Utxo, tx: ByronTx, n: nat): nat
    requires n <= |tx.outputs|
  {
    if n == 0 then 0 else Overwritten(utxo, tx, n - 1) + GetOr(InsertOutputs(utxo, tx, n - 1), OutputKey(tx, n - 1))
  }

  lemma {:induction false} InsertSum(utxo: Utxo, tx: ByronTx, n: nat)
    requires n <= |tx.outputs| && OutputsValue(tx.outputs[..n]).Some?
    ensures Sum(InsertOutputs(utxo, tx, n)) + Overwritten(utxo, tx, n)
         == Sum(utxo) + OutputsValue(tx.outputs[..n]).value
  {
    if n > 0 {
      assert tx.outputs[..n][..n - 1] == tx.outputs[..n - 1];
      InsertSum(utxo, tx, n - 1);
      SumUpdate(InsertOutputs(utxo, tx, n - 1), OutputKey(tx, n - 1), tx.outputs[n - 1]);
    }
  }

  /** Nothing of value stands where the outputs go, and no two outputs share an index. */
  ghost predicate Undisturbed(utxo: Utxo, tx: ByronTx, n: nat) {
    n <= 0x1_0000 && forall i {:trigger OutputKey(tx, i)} :: 0 <= i < n ==> GetOr(utxo, OutputKey(tx, i)) == 0
  }

  lemma {:induction false} InsertedAt(utxo: Utxo, tx: ByronTx, n: nat, i: nat)
    requires n <= |tx.outputs|
    ensures i < 0x1_0000 && n <= i ==>
              GetOr(InsertOutputs(utxo, tx, n), OutputKey(tx, i)) == GetOr(utxo, OutputKey(tx, i))
    ensures i < n <= 0x1_0000 ==> GetOr(InsertOutputs(utxo, tx, n), OutputKey(tx, i)) == tx.outputs[i]
  {
    if n > 0 {
      InsertedAt(utxo, tx, n - 1, i);
    }
  }

  lemma {:induction false} NothingOverwrittenIff(utxo: Utxo, tx: ByronTx, n: nat)
    requires n <= |tx.outputs| && forall i :: 0 <= i < |tx.outputs| ==> tx.outputs[i] > 0
    ensures Overwritten(utxo, tx, n) == 0 <==> Undisturbed(utxo, tx, n)
  {
    if n > 0 {
      NothingOverwrittenIff(utxo, tx, n - 1);
      if n <= 0x1_0000 {
        InsertedAt(utxo, tx, n - 1, n - 1);
        assert OutputKey(tx, n - 1) == OutputKey(tx, n - 1);
      } else if n == 0x1_0001 {
        InsertedAt(utxo, tx, n - 1, 0);
        assert OutputKey(tx, n - 1) == OutputKey(tx, 0);
      }
    }
  }

  // A transaction.

  function SatMul(a: U64, b: U64): U64 {
    Min(a * b, U64_MAX)
  }

  function MinFee(size: U64, p: FeeParams): Coin {
    SatAdd(SatMul(p.minFeeA, size), p.minFeeB)
  }

  predicate AllPositive(outputs: seq<Coin>) {
    forall i :: 0 <= i < |outputs| ==> outputs[i] > 0
  }

  /** The new UTxO and the fee. */
  function ValidateTx(utxo: Utxo, tx: ByronTx, p: FeeParams): Result<(Utxo, Coin), ByronError> {
    if !Distinct(tx.inputs) then
      Err(DuplicateInput)
    else
      var spent :- Resolve(utxo, tx.inputs);
      var produced := OutputsValue(tx.outputs);
      if produced.None? || !AllPositive(tx.outputs) || spent.1 < produced.value then
        Err(Conservation)
      else if spent.1 - produced.value < MinFee(tx.size, p) then
        Err(InsufficientFee)
      else if !tx.witnessed then
        Err(BadWitness)
      else
        Ok((InsertOutputs(spent.0, tx, |tx.outputs|), spent.1 - produced.value))
  }

  method ValidateByronTx(utxo: Utxo, tx: ByronTx, p: FeeParams) returns (r: Result<(Utxo, Coin), ByronError>)
    ensures r == ValidateTx(utxo, tx, p)
  {
    var distinct := CheckDuplicates(tx.inputs);
    if !distinct {
      return Err(DuplicateInput);
    }
    var spent := ResolveInputs(utxo, tx.inputs);
    if spent.Err? {
      return Err(spent.error);
    }
    var produced := ComputeOutputsValue(tx.outputs);
    if produced.None? {
      return Err(Conservation);
    }
    for i := 0 to |tx.outputs|
      invariant AllPositive(tx.outputs[..i])
    {
      if tx.outputs[i] == 0 {
        return Err(Conservation);
      }
    }
    assert tx.outputs[..|tx.outputs|] == tx.outputs;
    var fee := CheckedSub(spent.value.1, produced.value);
    if fee.None? {
      return Err(Conservation);
    }
    if fee.value < MinFee(tx.size, p) {
      return Err(InsufficientFee);
    }
    if !tx.witnessed {
      return Err(BadWitness);
    }
    var final := spent.value.0;
    for i := 0 to |tx.outputs|
      invariant final == InsertOutputs(spent.value.0, tx, i)
    {
      final := final[OutputKey(tx, i) := tx.outputs[i]];
    }
    return Ok((final, fee.value));
  }

  /**
   An accepted transaction never creates coin, and it conserves coin exactly when it has
   at most 65536 outputs and none lands on an entry that holds value. Its fee meets the
   size-based minimum, a price a byte plus a constant, clamped to 64 bits.
   */
  lemma TxConserves(utxo: Utxo, tx: ByronTx, p: FeeParams)
    requires ValidateTx(utxo, tx, p).Ok?
    ensures var r := ValidateTx(utxo, tx, p).value;
      && Sum(r.0) + r.1 <= Sum(utxo)
      && (Sum(r.0) + r.1 == Sum(utxo) <==> Undisturbed(utxo - Keys(tx.inputs), tx, |tx.outputs|))
      && r.1 >= Min(p.minFeeA * tx.size + p.minFeeB, U64_MAX)
  {
    hide Resolve, MinFee, Undisturbed, Overwritten, InsertOutputs;
    MinFeeIsLinear(tx.size, p);
    ResolveSpends(utxo, tx.inputs);
    var left := utxo - Keys(tx.inputs);
    assert tx.outputs[..|tx.outputs|] == tx.outputs;
    InsertSum(left, tx, |tx.outputs|);
    NothingOverwrittenIff(left, tx, |tx.outputs|);
  }

  lemma MinFeeIsLinear(size: U64, p: FeeParams)
    ensures MinFee(size, p) == Min(p.minFeeA * size + p.minFeeB, U64_MAX)
  {
    assert p.minFeeA * size >= 0;
  }

  /** Once inputs, outputs and coverage are in order, the fee alone decides. */
  lemma FeeRefusedIff(utxo: Utxo, tx: ByronTx, p: FeeParams)
    requires Distinct(tx.inputs) && Resolve(utxo, tx.inputs).Ok?
    requires OutputsValue(tx.outputs).Some? && AllPositive(tx.outputs)
    requires OutputsValue(tx.outputs).value <= Resolve(utxo, tx.inputs).value.1
    ensures var fee := Resolve(utxo, tx.inputs).value.1 - OutputsValue(tx.outputs).value;
      && (ValidateTx(utxo, tx, p) == Err(InsufficientFee) <==> fee < Min(p.minFeeA * tx.size + p.minFeeB, U64_MAX))
      && (ValidateTx(utxo, tx, p).Ok? <==>
            fee >= Min(p.minFeeA * tx.size + p.minFeeB, U64_MAX) && tx.witnessed)
  {
    hide MinFee, Resolve, InsertOutputs;
    MinFeeIsLinear(tx.size, p);
  }

  /** An accepted output is what an input that names its index spends, up to the 65536th. */
  lemma OutputsCanBeSpent(utxo: Utxo, tx: ByronTx, p: FeeParams, i: nat, named: nat)
    requires ValidateTx(utxo, tx, p).Ok? && i < |tx.outputs| <= 0x1_0000
    ensures var after := ValidateTx(utxo, tx, p).value.0;
      && TxIn(tx.txId, i) in after && after[TxIn(tx.txId, i)] == tx.outputs[i]
      && (named % 0x1_0000 == i ==>
            Resolve(after, [ByronIn(tx.txId, named)]) == Ok((after - {TxIn(tx.txId, i)}, tx.outputs[i])))
  {
    hide MinFee;
    InsertedAt(Resolve(utxo, tx.inputs).value.0, tx, |tx.outputs|, i);
    assert OutputKey(tx, i) == TxIn(tx.txId, i);
    hide ValidateTx, InsertOutputs;
    assert [ByronIn(tx.txId, named)][..0] == [];
  }

  lemma {:induction false} ManyOnes(n: nat)
    requires n <= U64_MAX
    ensures OutputsValue(seq(n, _ => 1)) == Some(n)
  {
    if n > 0 {
      ManyOnes(n - 1);
      assert seq(n, _ => 1 as Coin)[..n - 1] == seq(n - 1, _ => 1 as Coin);
    }
  }

  /** A transaction that spends one entry into `n` outputs of one lovelace each, for no fee. */
  function Splitting(h: Hash32, id: Hash32, n: nat): ByronTx {
    ByronTx([ByronIn(h, 0)], seq(n, _ => 1), id, 0, true)
  }

  /** From the 65537th output on, an accepted transaction loses coin: outputs overwrite each other. */
  lemma TooManyOutputsLoseCoin(h: Hash32, id: Hash32, n: nat)
    requires 0x1_0000 < n <= U64_MAX
    ensures var utxo, tx, p := map[TxIn(h, 0) := n as Coin], Splitting(h, id, n), FeeParams(0, 0);
      && ValidateTx(utxo, tx, p).Ok?
      && Sum(ValidateTx(utxo, tx, p).value.0) + ValidateTx(utxo, tx, p).value.1 < Sum(utxo)
  {
    var utxo: Utxo := map[TxIn(h, 0) := n];
    var tx, p := Splitting(h, id, n), FeeParams(0, 0);
    ManyOnes(n);
    OneInput(h, n);
    hide Resolve, OutputsValue, InsertOutputs;
    assert ValidateTx(utxo, tx, p).Ok?;
    TxConserves(utxo, tx, p);
  }

  lemma OneInput(h: Hash32, n: Coin)
    ensures Resolve(map[TxIn(h, 0) := n], [ByronIn(h, 0)]) == Ok((map[], n))
  {
    assert [ByronIn(h, 0)][..0] == [];
    assert map[TxIn(h, 0) := n] - {TxIn(h, 0)} == map[];
  }

  // A block.

  function ValidateBlock(utxo: Utxo, txs: seq<ByronTx>, p: FeeParams): Result<(Utxo, nat), ByronError> {
    if txs == [] then
      Ok((utxo, 0))
    else
      var n := |txs| - 1;
      var before :- ValidateBlock(utxo, txs[..n], p);
      var after :- ValidateTx(before.0, txs[n], p);
      Ok((after.0, before.1 + after.1))
  }

  method ValidateByronBlock(utxo: Utxo, txs: seq<ByronTx>, p: FeeParams)
    returns (r: Result<Utxo, ByronError>)
    ensures match ValidateBlock(utxo, txs, p)
      case Ok(v) => r == Ok(v.0)
      case Err(e) => r == Err(e)
  {
    hide ValidateTx;
    var state := utxo;
    ghost var fees: nat := 0;
    for n := 0 to |txs|
      invariant ValidateBlock(utxo, txs[..n], p) == Ok((state, fees))
    {
      assert txs[..n + 1][..n] == txs[..n];
      var next := ValidateByronTx(state, txs[n], p);
      if next.Err? {
        BlockRefusalIsFinal(utxo, txs, n + 1, p);
        return Err(next.error);
      }
      state := next.value.0;
      fees := fees + next.value.1;
    }
    assert txs[..|txs|] == txs;
    return Ok(state);
  }

  lemma {:induction false} BlockRefusalIsFinal(utxo: Utxo, txs: seq<ByronTx>, n: nat, p: FeeParams)
    requires n <= |txs| && ValidateBlock(utxo, txs[..n], p).Err?
    ensures ValidateBlock(utxo, txs, p) == ValidateBlock(utxo, txs[..n], p)
    decreases |txs|
  {
    hide ValidateTx;
    if n == |txs| {
      assert txs[..n] == txs;
    } else {
      var shorter := txs[..|txs| - 1];
      assert shorter[..n] == txs[..n];
      BlockRefusalIsFinal(utxo, shorter, n, p);
    }
  }

  /** No transaction id is in the UTxO, and no two are the same. */
  ghost predicate FreshIds(utxo: Utxo, txs: seq<ByronTx>) {
    && (forall k, i :: k in utxo && 0 <= i < |txs| ==> k.txHash != txs[i].txId)
    && (forall i, j :: 0 <= i < j < |txs| ==> txs[i].txId != txs[j].txId)
  }

  ghost predicate FewOutputs(txs: seq<ByronTx>) {
    forall i :: 0 <= i < |txs| ==> |txs[i].outputs| <= 0x1_0000
  }

  function Spent(txs: seq<ByronTx>): set<TxIn> {
    if txs == [] then {} else Spent(txs[..|txs| - 1]) + Keys(txs[|txs| - 1].inputs)
  }

  lemma {:induction false} InsertedKeys(utxo: Utxo, tx: ByronTx, n: nat, k: TxIn)
    requires n <= |tx.outputs|
    ensures k in InsertOutputs(utxo, tx, n) ==> k in utxo || k.txHash == tx.txId
    ensures k in utxo ==> k in InsertOutputs(utxo, tx, n)
  {
    if n > 0 {
      InsertedKeys(utxo, tx, n - 1, k);
    }
  }

  lemma TxKeys(utxo: Utxo, tx: ByronTx, p: FeeParams, k: TxIn)
    requires ValidateTx(utxo, tx, p).Ok?
    ensures var after := ValidateTx(utxo, tx, p).value.0;
      && (k in after ==> (k in utxo && k !in Keys(tx.inputs)) || k.txHash == tx.txId)
      && Keys(tx.inputs) <= utxo.Keys
  {
    hide Resolve, InsertOutputs, Keys;
    ResolveSpends(utxo, tx.inputs);
    InsertedKeys(utxo - Keys(tx.inputs), tx, |tx.outputs|, k);
  }

  /** With fresh ids a spent entry never comes back, so no later transaction can spend it again. */
  lemma {:induction false} SpentStaysSpent(utxo: Utxo, txs: seq<ByronTx>, p: FeeParams, k: TxIn)
    requires ValidateBlock(utxo, txs, p).Ok? && FreshIds(utxo, txs)
    ensures var after := ValidateBlock(utxo, txs, p).value.0;
      && (k in after || k in Spent(txs) ==> k in utxo || exists i :: 0 <= i < |txs| && k.txHash == txs[i].txId)
      && !(k in after && k in Spent(txs))
  {
    hide ValidateTx, Keys;
    if txs != [] {
      var n := |txs| - 1;
      var init := txs[..n];
      assert FreshIds(utxo, init);
      SpentStaysSpent(utxo, init, p, k);
      var before := ValidateBlock(utxo, init, p).value.0;
      TxKeys(before, txs[n], p, k);
      if k in before || k in Spent(init) || k in Keys(txs[n].inputs) {
        assert k.txHash != txs[n].txId;
        if k !in utxo {
          var i :| 0 <= i < |init| && k.txHash == init[i].txId;
          assert txs[i].txId == init[i].txId;
        }
      }
    }
  }

  /** Every input spent was live, and none is spent twice in the block. */
  lemma {:induction false} InputsSpentOnce(utxo: Utxo, txs: seq<ByronTx>, p: FeeParams)
    requires ValidateBlock(utxo, txs, p).Ok? && FreshIds(utxo, txs)
    ensures forall i :: 0 <= i < |txs| ==> Distinct(txs[i].inputs) && Keys(txs[i].inputs) <= Spent(txs)
    ensures forall i, j :: 0 <= i < j < |txs| ==> Keys(txs[i].inputs) !! Keys(txs[j].inputs)
  {
    hide ValidateTx, Keys, Distinct;
    if txs != [] {
      var n := |txs| - 1;
      var init := txs[..n];
      assert FreshIds(utxo, init);
      InputsSpentOnce(utxo, init, p);
      var before := ValidateBlock(utxo, init, p).value.0;
      InputsWereLive(before, txs[n], p);
      forall k | k in Keys(txs[n].inputs)
        ensures k !in Spent(init)
      {
        SpentStaysSpent(utxo, init, p, k);
      }
      forall i | 0 <= i < n
        ensures Keys(txs[i].inputs) <= Spent(init) && Distinct(txs[i].inputs)
      {
        assert init[i] == txs[i];
      }
      forall i, j | 0 <= i < j < n
        ensures Keys(txs[i].inputs) !! Keys(txs[j].inputs)
      {
        assert init[i] == txs[i] && init[j] == txs[j];
      }
    }
  }

  lemma InputsWereLive(utxo: Utxo, tx: ByronTx, p: FeeParams)
    requires ValidateTx(utxo, tx, p).Ok?
    ensures Keys(tx.inputs) <= utxo.Keys && Distinct(tx.inputs)
  {
    hide Resolve, InsertOutputs;
    ResolveSpends(utxo, tx.inputs);
  }

  lemma TxUndisturbed(utxo: Utxo, txs: seq<ByronTx>, p: FeeParams)
    requires txs != [] && FreshIds(utxo, txs) && FewOutputs(txs)
    requires ValidateBlock(utxo, txs[..|txs| - 1], p).Ok?
    ensures var before, tx := ValidateBlock(utxo, txs[..|txs| - 1], p).value.0, txs[|txs| - 1];
      Undisturbed(before - Keys(tx.inputs), tx, |tx.outputs|)
  {
    hide ValidateBlock;
    var n := |txs| - 1;
    var before, tx, init := ValidateBlock(utxo, txs[..n], p).value.0, txs[n], txs[..n];
    assert FreshIds(utxo, init);
    forall j | 0 <= j < |init|
      ensures init[j].txId != tx.txId
    {
      assert txs[j].txId != txs[n].txId;
    }
    forall i: nat | i < |tx.outputs|
      ensures OutputKey(tx, i) !in before
    {
      SpentStaysSpent(utxo, init, p, OutputKey(tx, i));
    }
  }

  /**
   For every accepted block with fresh transaction ids and at most 65536 outputs a
   transaction, the UTxO before is worth the UTxO after plus the fees.
   */
  lemma {:induction false} BlockConserves(utxo: Utxo, txs: seq<ByronTx>, p: FeeParams)
    requires ValidateBlock(utxo, txs, p).Ok? && FreshIds(utxo, txs) && FewOutputs(txs)
    ensures Sum(utxo) == Sum(ValidateBlock(utxo, txs, p).value.0) + ValidateBlock(utxo, txs, p).value.1
  {
    hide ValidateTx, Undisturbed;
    if txs != [] {
      var n := |txs| - 1;
      assert FreshIds(utxo, txs[..n]);
      BlockConserves(utxo, txs[..n], p);
      TxUndisturbed(utxo, txs, p);
      TxConserves(ValidateBlock(utxo, txs[..n], p).value.0, txs[n], p);
    }
  }

  /** Without those premises a block still creates nothing. */
  lemma {:induction false} BlockCreatesNothing(utxo: Utxo, txs: seq<ByronTx>, p: FeeParams)
    requires ValidateBlock(utxo, txs, p).Ok?
    ensures Sum(ValidateBlock(utxo, txs, p).value.0) + ValidateBlock(utxo, txs, p).value.1 <= Sum(utxo)
  {
    hide ValidateTx, Undisturbed;
    if txs != [] {
      var n := |txs| - 1;
      BlockCreatesNothing(utxo, txs[..n], p);
      TxConserves(ValidateBlock(utxo, txs[..n], p).value.0, txs[n], p);
    }
  }
}
