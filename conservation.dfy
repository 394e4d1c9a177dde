/**
 Conservation of value at the level of the whole pool: accepting a valid
 transaction never increases the total value held in the pool, so neither
 does an epoch.
 */
module Conservation {
  import opened Ledger
  import opened Validity
  import opened Epoch

  /** The total value held in a pool. */
  ghost function TotalValue(pool: Pool): (total: real)
    decreases |pool|
  {
    if pool == map[] then 0.0
    else
      var u :| u in pool;
      pool[u].value + TotalValue(pool - {u})
  }

  /** The total is any one entry's value plus the total of the rest, whichever
      entry is taken out. */
  lemma {:induction false} TotalValueRemove(pool: Pool, u: UTXO)
    requires u in pool
    ensures TotalValue(pool) == pool[u].value + TotalValue(pool - {u})
    decreases |pool|
  {
    var v :| v in pool && TotalValue(pool) == pool[v].value + TotalValue(pool - {v});
    if v != u {
      assert (pool - {v}) - {u} == (pool - {u}) - {v};
      TotalValueRemove(pool - {v}, u);
      TotalValueRemove(pool - {u}, v);
    }
  }

  /** Inserting an entry adds its value and drops the value it overwrites. */
  lemma TotalValueInsert(pool: Pool, u: UTXO, o: Output)
    ensures TotalValue(pool[u := o]) == TotalValue(pool) - (if u in pool then pool[u].value else 0.0) + o.value
  {
    TotalValueRemove(pool[u := o], u);
    if u in pool {
      assert pool[u := o] - {u} == pool - {u};
      TotalValueRemove(pool, u);
    } else {
      assert pool[u := o] - {u} == pool;
    }
  }

  /** With every claim present and none repeated, the claim of input `n` is
      still in the pool once the first `n` claims are removed, and removing
      it is the next removal step. */
  lemma RemoveNextClaim(pool: Pool, inputs: seq<Input>, n: nat)
    requires n < |inputs|
    requires ClaimsInPool(pool, inputs) && NoDuplicateClaims(inputs)
    ensures Claim(inputs[n]) in pool - ClaimsUpTo(inputs, n)
    ensures pool - ClaimsUpTo(inputs, n + 1) == (pool - ClaimsUpTo(inputs, n)) - {Claim(inputs[n])}
  {
    ClaimsUpToNext(inputs, n);
  }

  /** Removing the outputs claimed by the first `n` inputs, all present and
      none claimed twice, takes exactly their values out of the total. */
  lemma {:induction false} TotalAfterRemovingClaims(pool: Pool, inputs: seq<Input>, n: nat)
    requires n <= |inputs|
    requires ClaimsInPool(pool, inputs) && NoDuplicateClaims(inputs)
    ensures TotalValue(pool - ClaimsUpTo(inputs, n)) == TotalValue(pool) - SumClaimed(pool, inputs[..n])
  {
    if n == 0 {
      assert pool - ClaimsUpTo(inputs, 0) == pool;
      assert inputs[..0] == [];
    } else {
      TotalAfterRemovingClaims(pool, inputs, n - 1);
      RemoveNextClaim(pool, inputs, n - 1);
      TotalValueRemove(pool - ClaimsUpTo(inputs, n - 1), Claim(inputs[n - 1]));
      SumClaimedNext(pool, inputs, n - 1);
    }
  }

  /** Inserting the first `n` outputs of a transaction with no negative
      output, over entries that are not negative, adds at most their sum: an
      overwritten entry only lowers the total. */
  lemma {:induction false} TotalAfterInserting(pool: Pool, tx: Transaction, n: nat)
    requires n <= |tx.outputs|
    requires NonNegativePool(pool) && NoNegativeOutputs(tx.outputs)
    ensures NonNegativePool(pool + CreatedUpTo(tx, n))
    ensures TotalValue(pool + CreatedUpTo(tx, n)) <= TotalValue(pool) + SumValues(tx.outputs[..n])
  {
    if n == 0 {
      assert pool + CreatedUpTo(tx, 0) == pool;
      assert tx.outputs[..0] == [];
    } else {
      TotalAfterInserting(pool, tx, n - 1);
      var m := pool + CreatedUpTo(tx, n - 1);
      CreatedUpToNext(pool, tx, n - 1);
      TotalValueInsert(m, UTXO(tx.hash, n - 1), tx.outputs[n - 1]);
      SumValuesNext(tx.outputs, n - 1);
    }
  }

  /** Accepting a valid transaction takes the claimed values out of the pool
      and puts at most the output values back, so the total does not grow;
      the difference is the fee the transaction leaves. */
  lemma ApplyConserves(pool: Pool, tx: Transaction, crypto: Crypto)
    requires NonNegativePool(pool) && ValidTx(pool, tx, crypto)
    ensures TotalValue(Apply(pool, tx)) <= TotalValue(pool) - SumClaimed(pool, tx.inputs) + SumValues(tx.outputs)
    ensures TotalValue(Apply(pool, tx)) <= TotalValue(pool)
  {
    var spent := pool - ClaimsUpTo(tx.inputs, |tx.inputs|);
    TotalAfterRemovingClaims(pool, tx.inputs, |tx.inputs|);
    assert tx.inputs[..|tx.inputs|] == tx.inputs;
    assert NonNegativePool(spent);
    TotalAfterInserting(spent, tx, |tx.outputs|);
    assert tx.outputs[..|tx.outputs|] == tx.outputs;
    assert Apply(pool, tx) == spent + CreatedUpTo(tx, |tx.outputs|);
  }

  /** An epoch never increases the total value of a pool with no negative
      entry. */
  lemma {:induction false} EpochConserves(pool: Pool, txs: seq<Transaction>, crypto: Crypto)
    requires NonNegativePool(pool)
    ensures TotalValue(EpochPool(pool, txs, crypto)) <= TotalValue(pool)
  {
    if txs != [] {
      var init := txs[..|txs| - 1];
      EpochConserves(pool, init, crypto);
      EpochKeepsNonNegative(pool, init, crypto);
      var before := EpochPool(pool, init, crypto);
      if ValidTx(before, txs[|txs| - 1], crypto) {
        ApplyConserves(before, txs[|txs| - 1], crypto);
      }
    }
  }
}
