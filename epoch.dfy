/**
 What one epoch does to the pool, as functions of the candidates: the effect
 of one accepted transaction, the greedy left-to-right pass of
 `TxHandler.handleTxs`, and what that pass guarantees.
 */
module Epoch {
  import opened Ledger
  import opened Validity

  /** The pool after an accepted transaction: its claimed outputs removed, then
      its own outputs `(tx.hash, i) -> tx.outputs[i]` inserted (an insertion
      overwrites an entry with the same identifier). */
  function Apply(pool: Pool, tx: Transaction): (r: Pool)
    ensures forall u :: u in r <==> Creates(tx, u) || (u in pool && u !in Claims(tx.inputs))
    ensures forall i :: 0 <= i < |tx.outputs| ==> UTXO(tx.hash, i) in r && r[UTXO(tx.hash, i)] == tx.outputs[i]
    ensures forall u :: u in r && !Creates(tx, u) ==> u in pool && r[u] == pool[u]
  {
    (pool - Claims(tx.inputs)) + Created(tx)
  }

  /** One candidate of the pass: applied when valid against the current pool,
      otherwise skipped with the pool unchanged. */
  function Step(pool: Pool, tx: Transaction, crypto: Crypto): (r: Pool)
  {
    if ValidTx(pool, tx, crypto) then Apply(pool, tx) else pool
  }

  /** The pool after the candidates have been taken in order, each tested
      against the pool left by the ones before it. */
  function EpochPool(pool: Pool, txs: seq<Transaction>, crypto: Crypto): (r: Pool)
  {
    if txs == [] then pool
    else Step(EpochPool(pool, txs[..|txs| - 1], crypto), txs[|txs| - 1], crypto)
  }

  /** The pool that candidate `i` is tested against. */
  function PoolBefore(pool: Pool, txs: seq<Transaction>, i: nat, crypto: Crypto): (r: Pool)
    requires i <= |txs|
  {
    EpochPool(pool, txs[..i], crypto)
  }

  /** Candidate `i` is accepted: valid against the pool as updated by all
      earlier acceptances, not against the pool the epoch started from. */
  predicate Accepts(pool: Pool, txs: seq<Transaction>, i: nat, crypto: Crypto)
    requires i < |txs|
  {
    ValidTx(PoolBefore(pool, txs, i, crypto), txs[i], crypto)
  }

  /** The accepted candidates among the first `n`. */
  function AcceptedUpTo(pool: Pool, txs: seq<Transaction>, n: nat, crypto: Crypto): (r: set<Transaction>)
    requires n <= |txs|
    ensures forall t :: t in r ==> exists i :: 0 <= i < n && Accepts(pool, txs, i, crypto) && txs[i] == t
    ensures forall i :: 0 <= i < n && Accepts(pool, txs, i, crypto) ==> txs[i] in r
  {
    set i | 0 <= i < n && Accepts(pool, txs, i, crypto) :: txs[i]
  }

  /** Taking one more candidate adds it to the result exactly when it is accepted. */
  lemma AcceptedUpToNext(pool: Pool, txs: seq<Transaction>, n: nat, crypto: Crypto)
    requires n < |txs|
    ensures AcceptedUpTo(pool, txs, n + 1, crypto) ==
      AcceptedUpTo(pool, txs, n, crypto) + (if Accepts(pool, txs, n, crypto) then {txs[n]} else {})
  {
  }

  /** The set of accepted candidates: exactly the candidates that passed
      against the pool they met. */
  function AcceptedSet(pool: Pool, txs: seq<Transaction>, crypto: Crypto): (r: set<Transaction>)
    ensures forall t :: t in r ==> exists i :: 0 <= i < |txs| && Accepts(pool, txs, i, crypto) && txs[i] == t
    ensures forall i :: 0 <= i < |txs| && Accepts(pool, txs, i, crypto) ==> txs[i] in r
  {
    AcceptedUpTo(pool, txs, |txs|, crypto)
  }

  /** Candidate `i` moves the pool from `PoolBefore(i)` to `PoolBefore(i + 1)`:
      by `Apply` when accepted, not at all when rejected. */
  lemma PoolBeforeNext(pool: Pool, txs: seq<Transaction>, i: nat, crypto: Crypto)
    requires i < |txs|
    ensures Accepts(pool, txs, i, crypto) ==>
      PoolBefore(pool, txs, i + 1, crypto) == Apply(PoolBefore(pool, txs, i, crypto), txs[i])
    ensures !Accepts(pool, txs, i, crypto) ==>
      PoolBefore(pool, txs, i + 1, crypto) == PoolBefore(pool, txs, i, crypto)
  {
    assert txs[..i + 1][..i] == txs[..i];
  }

  /** The whole epoch is the pool before a candidate past the last one. */
  lemma EpochPoolIsPoolBeforeEnd(pool: Pool, txs: seq<Transaction>, crypto: Crypto)
    ensures EpochPool(pool, txs, crypto) == PoolBefore(pool, txs, |txs|, crypto)
  {
    assert txs[..|txs|] == txs;
  }

  /** No entry of the pool has a negative value. */
  predicate NonNegativePool(pool: Pool)
  {
    forall u :: u in pool ==> pool[u].value >= 0.0
  }

  /** Accepted transactions only insert outputs that passed the
      non-negativity check, so a pool with no negative value keeps none. */
  lemma {:induction false} EpochKeepsNonNegative(pool: Pool, txs: seq<Transaction>, crypto: Crypto)
    requires NonNegativePool(pool)
    ensures NonNegativePool(EpochPool(pool, txs, crypto))
  {
    if txs != [] {
      var before := EpochPool(pool, txs[..|txs| - 1], crypto);
      EpochKeepsNonNegative(pool, txs[..|txs| - 1], crypto);
      var tx := txs[|txs| - 1];
      if ValidTx(before, tx, crypto) {
        var after := Apply(before, tx);
        forall u | u in after ensures after[u].value >= 0.0 {
          if Creates(tx, u) {
            assert after[u] == tx.outputs[u.index];
          }
        }
      }
    }
  }

  /** Every identifier in the pool during the epoch was either there at the
      start or created by an earlier accepted candidate. */
  lemma {:induction false} Provenance(pool: Pool, txs: seq<Transaction>, n: nat, u: UTXO, crypto: Crypto)
    requires n <= |txs|
    requires u in PoolBefore(pool, txs, n, crypto)
    ensures u in pool || exists k :: 0 <= k < n && Accepts(pool, txs, k, crypto) && Creates(txs[k], u)
  {
    if n > 0 {
      PoolBeforeNext(pool, txs, n - 1, crypto);
      if Accepts(pool, txs, n - 1, crypto) && Creates(txs[n - 1], u) {
      } else {
        assert u in PoolBefore(pool, txs, n - 1, crypto);
        Provenance(pool, txs, n - 1, u, crypto);
      }
    }
  }

  /** An identifier absent before candidate `i` stays absent up to candidate
      `n` unless an accepted candidate in between creates it. */
  lemma {:induction false} StaysAbsent(pool: Pool, txs: seq<Transaction>, i: nat, n: nat, u: UTXO, crypto: Crypto)
    requires i <= n <= |txs|
    requires u !in PoolBefore(pool, txs, i, crypto)
    requires forall k :: i <= k < n && Accepts(pool, txs, k, crypto) ==> !Creates(txs[k], u)
    ensures u !in PoolBefore(pool, txs, n, crypto)
  {
    if i < n {
      StaysAbsent(pool, txs, i, n - 1, u, crypto);
      PoolBeforeNext(pool, txs, n - 1, crypto);
    }
  }

  /** No double spend within an epoch: when accepted candidates `i < j` both
      claim `u`, some accepted candidate from `i` up to (not including) `j`
      created `u` again after `i` spent it. */
  lemma NoDoubleSpend(pool: Pool, txs: seq<Transaction>, i: nat, j: nat, u: UTXO, crypto: Crypto)
    requires i < j < |txs|
    requires Accepts(pool, txs, i, crypto) && Accepts(pool, txs, j, crypto)
    requires u in Claims(txs[i].inputs) && u in Claims(txs[j].inputs)
    ensures exists k :: i <= k < j && Accepts(pool, txs, k, crypto) && Creates(txs[k], u)
  {
    if !Creates(txs[i], u) {
      PoolBeforeNext(pool, txs, i, crypto);
      assert u !in PoolBefore(pool, txs, i + 1, crypto);
      var n :| 0 <= n < |txs[j].inputs| && Claim(txs[j].inputs[n]) == u;
      assert u in PoolBefore(pool, txs, j, crypto);
      if forall k :: i + 1 <= k < j && Accepts(pool, txs, k, crypto) ==> !Creates(txs[k], u) {
        StaysAbsent(pool, txs, i + 1, j, u, crypto);
        assert false;
      }
    }
  }

  /** Candidates' hashes are pairwise distinct, and none is the hash of an
      identifier already in the pool. */
  predicate FreshHashes(pool: Pool, txs: seq<Transaction>)
  {
    && (forall a, b :: 0 <= a < b < |txs| ==> txs[a].hash != txs[b].hash)
    && (forall u, k :: u in pool && 0 <= k < |txs| ==> u.txHash != txs[k].hash)
  }

  /** With fresh hashes, no output is spent by two accepted candidates of
      one epoch. */
  lemma NoDoubleSpendFreshHashes(pool: Pool, txs: seq<Transaction>, i: nat, j: nat, crypto: Crypto)
    requires FreshHashes(pool, txs)
    requires i < j < |txs|
    requires Accepts(pool, txs, i, crypto) && Accepts(pool, txs, j, crypto)
    ensures Claims(txs[i].inputs) !! Claims(txs[j].inputs)
  {
    if u :| u in Claims(txs[i].inputs) && u in Claims(txs[j].inputs) {
      NoDoubleSpend(pool, txs, i, j, u, crypto);
      var k :| i <= k < j && Accepts(pool, txs, k, crypto) && Creates(txs[k], u);
      var n :| 0 <= n < |txs[i].inputs| && Claim(txs[i].inputs[n]) == u;
      assert u in PoolBefore(pool, txs, i, crypto);
      Provenance(pool, txs, i, u, crypto);
      assert false;
    }
  }

  /** Once accepted, a transaction's claims are gone from the pool, unless it
      re-creates one itself; so presenting it again (in the same epoch or a
      later one) is rejected as long as one of its claims is not one of its
      own outputs. */
  lemma ResubmitRejected(pool: Pool, tx: Transaction, crypto: Crypto, i: nat)
    requires ValidTx(pool, tx, crypto)
    requires i < |tx.inputs| && !Creates(tx, Claim(tx.inputs[i]))
    ensures Claim(tx.inputs[i]) !in Apply(pool, tx)
    ensures !ValidTx(Apply(pool, tx), tx, crypto)
  {
  }

  /** Outputs created by an accepted transaction can be spent afterwards: a
      transaction whose one input claims output `i` of `tx`, signed for that
      output's address, with non-negative outputs worth no more than it, is
      valid against the pool that accepting `tx` leaves. */
  lemma CreatedOutputSpendable(pool: Pool, tx: Transaction, i: nat, next: Transaction, crypto: Crypto)
    requires ValidTx(pool, tx, crypto)
    requires i < |tx.outputs|
    requires |next.inputs| == 1 && Claim(next.inputs[0]) == UTXO(tx.hash, i)
    requires crypto.verifySignature(tx.outputs[i].address, crypto.rawDataToSign(next, 0), next.inputs[0].signature)
    requires NoNegativeOutputs(next.outputs) && SumValues(next.outputs) <= tx.outputs[i].value
    ensures ValidTx(Apply(pool, tx), next, crypto)
  {

  }

  /** A transaction with no inputs is accepted again whenever it was accepted
      before, and applying it twice leaves the same pool as applying it once:
      when it is presented twice in one epoch the result set holds it once,
      and the pool is as if it had been applied once. */
  lemma InputlessReapplied(pool: Pool, tx: Transaction, crypto: Crypto)
    requires |tx.inputs| == 0
    ensures ValidTx(Apply(pool, tx), tx, crypto) == ValidTx(pool, tx, crypto)
    ensures Apply(Apply(pool, tx), tx) == Apply(pool, tx)
  {
    InputlessValidity(pool, tx, crypto);
    InputlessValidity(Apply(pool, tx), tx, crypto);
    var once := Apply(pool, tx);
    var twice := Apply(once, tx);
    assert Claims(tx.inputs) == {};
    forall u ensures u in twice <==> u in once {
    }
    forall u | u in twice ensures twice[u] == once[u] {
      if Creates(tx, u) {
        assert u == UTXO(tx.hash, u.index);
      }
    }
  }
}
