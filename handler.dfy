/**
 The transaction handler: it owns the pool of unspent outputs, checks single
 transactions against it and settles one epoch of candidates at a time,
 updating the pool in place.
 */
module Handler {
  import opened Ledger
  import opened Validity
  import opened Epoch

  class TxHandler {
    /** The current pool of unspent outputs, owned by this handler. */
    var utxoPool: Pool
    /** Signature verification and signable payloads, supplied from outside. */
    const crypto: Crypto

    /** Starts from (a copy of) the given pool: a map is a value, so later
        changes to the caller's pool cannot reach this one. */
    constructor (pool: Pool, crypto: Crypto)
      ensures utxoPool == pool && this.crypto == crypto
    {
      utxoPool := pool;
      this.crypto := crypto;
    }

    /** Checks the inputs in order (claimed output in the pool, signature,
        not claimed twice), then the outputs (none negative), then that the
        outputs carry no more than the claimed pool values. Reads the pool and
        changes nothing. */
    method IsValidTx(tx: Transaction) returns (ok: bool)
      ensures ok <==> ValidTx(utxoPool, tx, crypto)
    {
      var uniqueUtxoPool: Pool := map[];
      var sumInput := 0.0;
      var sumOutput := 0.0;

      var i := 0;
      while i < |tx.inputs|
        invariant 0 <= i <= |tx.inputs|
        invariant forall j :: 0 <= j < i ==> InputPasses(utxoPool, tx, crypto, j)
        invariant uniqueUtxoPool.Keys == ClaimsUpTo(tx.inputs, i)
        invariant sumInput == SumClaimed(utxoPool, tx.inputs[..i])
      {
        var txIn := tx.inputs[i];
        var utxo := Claim(txIn);
        if utxo !in utxoPool {
          InputFails(utxoPool, tx, crypto, i);
          return false;
        }
        var txOut := utxoPool[utxo];
        if !crypto.verifySignature(txOut.address, crypto.rawDataToSign(tx, i), txIn.signature) {
          InputFails(utxoPool, tx, crypto, i);
          return false;
        }
        if utxo in uniqueUtxoPool {
          InputFails(utxoPool, tx, crypto, i);
          return false;
        }
        uniqueUtxoPool := uniqueUtxoPool[utxo := txOut];
        sumInput := sumInput + txOut.value;
        ClaimsUpToNext(tx.inputs, i);
        SumClaimedNext(utxoPool, tx.inputs, i);
        i := i + 1;
      }
      InputsPass(utxoPool, tx, crypto);
      assert tx.inputs[..i] == tx.inputs;

      var k := 0;
      while k < |tx.outputs|
        invariant 0 <= k <= |tx.outputs|
        invariant forall m :: 0 <= m < k ==> tx.outputs[m].value >= 0.0
        invariant sumOutput == SumValues(tx.outputs[..k])
      {
        var txOut := tx.outputs[k];
        if txOut.value < 0.0 {
          return false;
        }
        sumOutput := sumOutput + txOut.value;
        SumValuesNext(tx.outputs, k);
        k := k + 1;
      }
      assert tx.outputs[..k] == tx.outputs;

      ok := sumOutput <= sumInput;
    }

    /** Applies an accepted transaction to the pool: removes every output its
        inputs claim, then inserts `(tx.hash, i) -> tx.outputs[i]` for each of
        its outputs in turn. Since the transaction is valid, every removal
        finds its entry present. */
    method Commit(tx: Transaction)
      requires ValidTx(utxoPool, tx, crypto)
      modifies this
      ensures utxoPool == Apply(old(utxoPool), tx)
    {
      var j := 0;
      while j < |tx.inputs|
        invariant 0 <= j <= |tx.inputs|
        invariant utxoPool == old(utxoPool) - ClaimsUpTo(tx.inputs, j)
        invariant forall k :: j <= k < |tx.inputs| ==> Claim(tx.inputs[k]) in utxoPool
      {
        var input := tx.inputs[j];
        var utxo := Claim(input);
        assert utxo in utxoPool;
        utxoPool := utxoPool - {utxo};
        ClaimsUpToNext(tx.inputs, j);
        j := j + 1;
      }
      ghost var spent := utxoPool;

      var i := 0;
      while i < |tx.outputs|
        invariant 0 <= i <= |tx.outputs|
        invariant utxoPool == spent + CreatedUpTo(tx, i)
      {
        CreatedUpToNext(spent, tx, i);
        utxoPool := utxoPool[UTXO(tx.hash, i) := tx.outputs[i]];
        i := i + 1;
      }
    }

    /** One greedy pass over the candidates in the order given: each is
        checked against the pool as it stands, and when valid it is added to
        the result, its claimed outputs are removed from the pool and its own
        outputs inserted. Returns the accepted candidates as a set. */
    method HandleTxs(possibleTxs: seq<Transaction>) returns (validTx: set<Transaction>)
      modifies this
      ensures utxoPool == EpochPool(old(utxoPool), possibleTxs, crypto)
      ensures validTx == AcceptedSet(old(utxoPool), possibleTxs, crypto)
    {
      ghost var start := utxoPool;
      validTx := {};
      var n := 0;
      while n < |possibleTxs|
        invariant 0 <= n <= |possibleTxs|
        invariant utxoPool == PoolBefore(start, possibleTxs, n, crypto)
        invariant validTx == AcceptedUpTo(start, possibleTxs, n, crypto)
      {
        var tx := possibleTxs[n];
        PoolBeforeNext(start, possibleTxs, n, crypto);
        AcceptedUpToNext(start, possibleTxs, n, crypto);
        var valid := IsValidTx(tx);
        if valid {
          validTx := validTx + {tx};
          Commit(tx);
        }
        n := n + 1;
      }
      EpochPoolIsPoolBeforeEnd(start, possibleTxs, crypto);
    }
  }
}
