/**
 When one transaction is valid against a pool of unspent outputs: the five
 conditions checked by `TxHandler.isValidTx`, stated outright over the whole
 transaction rather than as the loop that checks them.
 */
module Validity {
  import opened Ledger

  /** Sum of output values, accumulated left to right. */
  function SumValues(outputs: seq<Output>): (sum: real)
  {
    if outputs == [] then 0.0
    else SumValues(outputs[..|outputs| - 1]) + outputs[|outputs| - 1].value
  }

  /** (1) Every input claims an output that is in the pool. */
  predicate ClaimsInPool(pool: Pool, inputs: seq<Input>)
  {
    forall i :: 0 <= i < |inputs| ==> Claim(inputs[i]) in pool
  }

  /** Sum of the values the pool records for the outputs the inputs claim
      (what the pool says, not anything the transaction says). A claim
      missing from the pool adds nothing; `ValidTx` only compares sums when
      every claim is present. */
  function SumClaimed(pool: Pool, inputs: seq<Input>): (sum: real)
  {
    if inputs == [] then 0.0
    else
      var u := Claim(inputs[|inputs| - 1]);
      SumClaimed(pool, inputs[..|inputs| - 1]) + (if u in pool then pool[u].value else 0.0)
  }

  /** (2) Each input's signature verifies, under the address of the output it
      claims, over the payload signed for that input's index. */
  predicate SignaturesVerify(pool: Pool, tx: Transaction, crypto: Crypto)
    requires ClaimsInPool(pool, tx.inputs)
  {
    forall i :: 0 <= i < |tx.inputs| ==>
      crypto.verifySignature(pool[Claim(tx.inputs[i])].address, crypto.rawDataToSign(tx, i), tx.inputs[i].signature)
  }

  /** (3) No output is claimed by two inputs of the same transaction. */
  predicate NoDuplicateClaims(inputs: seq<Input>)
  {
    forall i, j :: 0 <= i < j < |inputs| ==> Claim(inputs[i]) != Claim(inputs[j])
  }

  /** (4) No output value is negative. */
  predicate NoNegativeOutputs(outputs: seq<Output>)
  {
    forall k :: 0 <= k < |outputs| ==> outputs[k].value >= 0.0
  }

  /** (5) The outputs carry no more value than the claimed pool entries; equality is allowed. */
  predicate Conserves(pool: Pool, tx: Transaction)
  {
    SumValues(tx.outputs) <= SumClaimed(pool, tx.inputs)
  }

  /** The transaction is valid against the pool: all five conditions hold. */
  predicate ValidTx(pool: Pool, tx: Transaction, crypto: Crypto)
  {
    && ClaimsInPool(pool, tx.inputs)
    && SignaturesVerify(pool, tx, crypto)
    && NoDuplicateClaims(tx.inputs)
    && NoNegativeOutputs(tx.outputs)
    && Conserves(pool, tx)
  }

  /** Input `i` passes the checks made for it, in the order they are made:
      its claim is in the pool, its signature verifies under the claimed
      output's address, and no earlier input made the same claim. */
  predicate InputPasses(pool: Pool, tx: Transaction, crypto: Crypto, i: nat)
    requires i < |tx.inputs|
  {
    var u := Claim(tx.inputs[i]);
    && u in pool
    && crypto.verifySignature(pool[u].address, crypto.rawDataToSign(tx, i), tx.inputs[i].signature)
    && u !in ClaimsUpTo(tx.inputs, i)
  }

  /** Checking the inputs one at a time, each against the claims of the
      earlier ones, decides exactly conditions (1) to (3). */
  lemma InputChecks(pool: Pool, tx: Transaction, crypto: Crypto)
    ensures (forall i :: 0 <= i < |tx.inputs| ==> InputPasses(pool, tx, crypto, i)) <==>
      ClaimsInPool(pool, tx.inputs) && SignaturesVerify(pool, tx, crypto) && NoDuplicateClaims(tx.inputs)
  {
    if forall i :: 0 <= i < |tx.inputs| ==> InputPasses(pool, tx, crypto, i) {
      assert ClaimsInPool(pool, tx.inputs) by {
        forall i | 0 <= i < |tx.inputs| ensures Claim(tx.inputs[i]) in pool {
          assert InputPasses(pool, tx, crypto, i);
        }
      }
      forall i | 0 <= i < |tx.inputs|
        ensures crypto.verifySignature(pool[Claim(tx.inputs[i])].address, crypto.rawDataToSign(tx, i), tx.inputs[i].signature)
      {
        assert InputPasses(pool, tx, crypto, i);
      }
      forall a, b | 0 <= a < b < |tx.inputs| ensures Claim(tx.inputs[a]) != Claim(tx.inputs[b]) {
        assert InputPasses(pool, tx, crypto, b);
      }
    }
    if ClaimsInPool(pool, tx.inputs) && SignaturesVerify(pool, tx, crypto) && NoDuplicateClaims(tx.inputs) {
      forall i | 0 <= i < |tx.inputs| ensures InputPasses(pool, tx, crypto, i) {
        assert Claim(tx.inputs[i]) in pool;
        assert crypto.verifySignature(pool[Claim(tx.inputs[i])].address, crypto.rawDataToSign(tx, i), tx.inputs[i].signature);
        if Claim(tx.inputs[i]) in ClaimsUpTo(tx.inputs, i) {
          assert false;
        }
      }
    }
  }

  /** An input failing its checks makes the whole transaction invalid. */
  lemma InputFails(pool: Pool, tx: Transaction, crypto: Crypto, i: nat)
    requires i < |tx.inputs| && !InputPasses(pool, tx, crypto, i)
    ensures !ValidTx(pool, tx, crypto)
  {

  }

  /** Once every input has passed its checks, validity comes down to the
      outputs: none negative, and their sum at most the claimed values. */
  lemma InputsPass(pool: Pool, tx: Transaction, crypto: Crypto)
    requires forall i :: 0 <= i < |tx.inputs| ==> InputPasses(pool, tx, crypto, i)
    ensures ValidTx(pool, tx, crypto) <==> NoNegativeOutputs(tx.outputs) && Conserves(pool, tx)
  {
    InputChecks(pool, tx, crypto);
  }

  /** Summing one more output. */
  lemma SumValuesNext(outputs: seq<Output>, k: nat)
    requires k < |outputs|
    ensures SumValues(outputs[..k + 1]) == SumValues(outputs[..k]) + outputs[k].value
  {
    assert outputs[..k + 1][..k] == outputs[..k];
  }

  /** Summing the claim of one more input. */
  lemma SumClaimedNext(pool: Pool, inputs: seq<Input>, i: nat)
    requires i < |inputs| && Claim(inputs[i]) in pool
    ensures SumClaimed(pool, inputs[..i + 1]) == SumClaimed(pool, inputs[..i]) + pool[Claim(inputs[i])].value
  {
    assert inputs[..i + 1][..i] == inputs[..i];
  }

  /** With no negative value among them, outputs sum to at least zero, and
      to zero exactly when every value is zero. */
  lemma {:induction false} SumValuesNonNegative(outputs: seq<Output>)
    requires NoNegativeOutputs(outputs)
    ensures SumValues(outputs) >= 0.0
    ensures SumValues(outputs) == 0.0 <==> forall k :: 0 <= k < |outputs| ==> outputs[k].value == 0.0
  {
    if outputs != [] {
      var init := outputs[..|outputs| - 1];
      assert NoNegativeOutputs(init) by {
        forall k | 0 <= k < |init| ensures init[k].value >= 0.0 {
          assert init[k] == outputs[k];
        }
      }
      SumValuesNonNegative(init);
      if SumValues(outputs) == 0.0 {
        forall k | 0 <= k < |outputs| ensures outputs[k].value == 0.0 {
          if k < |outputs| - 1 {
            assert init[k] == outputs[k];
          }
        }
      }
      if forall k :: 0 <= k < |outputs| ==> outputs[k].value == 0.0 {
        assert forall k :: 0 <= k < |init| ==> init[k].value == 0.0 by {
          forall k | 0 <= k < |init| ensures init[k].value == 0.0 {
            assert init[k] == outputs[k];
          }
        }
      }
    }
  }

  /** A transaction with no inputs claims nothing, so its validity does not
      depend on the pool: it is valid exactly when every output value is zero.
      Value cannot be created from nothing, and all-zero outputs (or none)
      are accepted. */
  lemma InputlessValidity(pool: Pool, tx: Transaction, crypto: Crypto)
    requires |tx.inputs| == 0
    ensures ValidTx(pool, tx, crypto) <==> forall k :: 0 <= k < |tx.outputs| ==> tx.outputs[k].value == 0.0
  {
    if forall k :: 0 <= k < |tx.outputs| ==> tx.outputs[k].value == 0.0 {
      assert NoNegativeOutputs(tx.outputs);
      SumValuesNonNegative(tx.outputs);
    }
    if ValidTx(pool, tx, crypto) {
      SumValuesNonNegative(tx.outputs);
    }
  }
}
