/**
 Concrete epochs over a pool holding one output U1 = (H0, 0) worth 10 and
 spendable by key A: two candidates that both spend U1, one that overspends
 it, one signed with the wrong key, and a second epoch that spends what the
 first created. The signature scheme stays abstract: each scenario only
 assumes which signatures verify.
 */
module Scenarios {
  import opened Ledger
  import opened Validity
  import opened Epoch
  import opened Handler

  const KeyA: Bytes := [0x0A]
  const KeyB: Bytes := [0x0B]
  const KeyC: Bytes := [0x0C]

  /** U1, the output of an earlier transaction with hash H0 = [0]. */
  const U1: UTXO := UTXO([0], 0)

  /** The pool the scenarios start from: U1 worth 10, spendable by A. */
  const Genesis: Pool := map[U1 := Output(10.0, KeyA)]

  /** Tx1 spends U1 and pays all 10 to B. */
  const Tx1: Transaction := Transaction([1], [Input([0], 0, [0x11])], [Output(10.0, KeyB)])

  /** Tx2 also spends U1 and pays 4 to C. */
  const Tx2: Transaction := Transaction([2], [Input([0], 0, [0x12])], [Output(4.0, KeyC)])

  /** Tx3 spends U1 and pays 6 to B and 5 to C: 11 out of an input worth 10. */
  const Tx3: Transaction := Transaction([3], [Input([0], 0, [0x13])], [Output(6.0, KeyB), Output(5.0, KeyC)])

  /** Tx4 spends U1 with a signature made with a key other than A. */
  const Tx4: Transaction := Transaction([4], [Input([0], 0, [0x14])], [Output(10.0, KeyB)])

  /** Tx5 spends Tx1's output (H1, 0) and pays 7 to C. */
  const Tx5: Transaction := Transaction([5], [Input([1], 0, [0x15])], [Output(7.0, KeyC)])

  /** The signature of input 0 of `tx` verifies under `key`. */
  predicate SignedBy(crypto: Crypto, tx: Transaction, key: Bytes)
    requires |tx.inputs| > 0
  {
    crypto.verifySignature(key, crypto.rawDataToSign(tx, 0), tx.inputs[0].signature)
  }

  /** A transaction spending U1 alone, correctly signed, with non-negative
      outputs worth at most 10, is valid against the starting pool. */
  lemma SpendsU1(tx: Transaction, crypto: Crypto)
    requires |tx.inputs| == 1 && Claim(tx.inputs[0]) == U1 && SignedBy(crypto, tx, KeyA)
    requires NoNegativeOutputs(tx.outputs) && SumValues(tx.outputs) <= 10.0
    ensures ValidTx(Genesis, tx, crypto)
  {

  }

  /** The pool after Tx1: U1 gone, (H1, 0) worth 10 for B in its place. */
  lemma AfterTx1()
    ensures Apply(Genesis, Tx1) == map[UTXO([1], 0) := Output(10.0, KeyB)]
  {
    var r := Apply(Genesis, Tx1);
    forall u ensures u in r <==> u == UTXO([1], 0) {
      ClaimsUpToNext(Tx1.inputs, 0);
    }
    assert r[UTXO([1], 0)] == Output(10.0, KeyB);
  }

  /** The pool after Tx2: U1 gone, (H2, 0) worth 4 for C in its place. */
  lemma AfterTx2()
    ensures Apply(Genesis, Tx2) == map[UTXO([2], 0) := Output(4.0, KeyC)]
  {
    var r := Apply(Genesis, Tx2);
    forall u ensures u in r <==> u == UTXO([2], 0) {
      ClaimsUpToNext(Tx2.inputs, 0);
    }
    assert r[UTXO([2], 0)] == Output(4.0, KeyC);
  }

  /** Two candidates spending U1, presented as [first, second], where both are
      valid alone and `first` re-creates nothing the second claims: the first
      is accepted and the second rejected, since U1 is gone when it is tested. */
  lemma FirstOfConflictingPairWins(first: Transaction, second: Transaction, crypto: Crypto)
    requires ValidTx(Genesis, first, crypto) && ValidTx(Genesis, second, crypto)
    requires U1 in Claims(second.inputs) && U1 !in Apply(Genesis, first)
    ensures AcceptedSet(Genesis, [first, second], crypto) == {first}
    ensures EpochPool(Genesis, [first, second], crypto) == Apply(Genesis, first)
  {

  }

  /** Batch [Tx1, Tx2]: only Tx1 is accepted, and the pool holds just
      (H1, 0) worth 10 for B. Batch [Tx2, Tx1]: only Tx2 is accepted. Which of
      two conflicting candidates wins depends on the order they come in. */
  lemma ConflictingSpendsOrderDecides(crypto: Crypto)
    requires SignedBy(crypto, Tx1, KeyA) && SignedBy(crypto, Tx2, KeyA)
    ensures AcceptedSet(Genesis, [Tx1, Tx2], crypto) == {Tx1}
    ensures EpochPool(Genesis, [Tx1, Tx2], crypto) == map[UTXO([1], 0) := Output(10.0, KeyB)]
    ensures AcceptedSet(Genesis, [Tx2, Tx1], crypto) == {Tx2}
    ensures EpochPool(Genesis, [Tx2, Tx1], crypto) == map[UTXO([2], 0) := Output(4.0, KeyC)]
  {
    assert Tx1.outputs[..0] == [] && Tx2.outputs[..0] == [];
    SpendsU1(Tx1, crypto);
    SpendsU1(Tx2, crypto);
    AfterTx1();
    AfterTx2();
    FirstOfConflictingPairWins(Tx1, Tx2, crypto);
    FirstOfConflictingPairWins(Tx2, Tx1, crypto);
  }

  /** Tx3 is rejected whatever the signatures: its outputs (11) exceed the
      value of U1 (10). */
  lemma OverspendRejected(crypto: Crypto)
    ensures !ValidTx(Genesis, Tx3, crypto)
  {
    assert Tx3.outputs[..0] == [] && Tx3.outputs[..2] == Tx3.outputs;
    SumValuesNext(Tx3.outputs, 0);
    SumValuesNext(Tx3.outputs, 1);
    assert Tx3.inputs[..0] == [];
    assert SumClaimed(Genesis, Tx3.inputs) == 10.0;
  }

  /** Tx4 is rejected when its signature does not verify under A, whatever
      its values. */
  lemma WrongKeyRejected(crypto: Crypto)
    requires !SignedBy(crypto, Tx4, KeyA)
    ensures !ValidTx(Genesis, Tx4, crypto)
  {
  }

  /** After Tx1 has been accepted, batch [Tx1, Tx5]: presented again, Tx1 is
      rejected because U1 is spent; Tx5, spending the output Tx1 created, is
      accepted. */
  lemma NextEpochAfterTx1(crypto: Crypto)
    requires SignedBy(crypto, Tx1, KeyA) && SignedBy(crypto, Tx5, KeyB)
    ensures AcceptedSet(Apply(Genesis, Tx1), [Tx1, Tx5], crypto) == {Tx5}
  {
    assert Tx1.outputs[..0] == [] && Tx5.outputs[..0] == [];
    SpendsU1(Tx1, crypto);
    ResubmitRejected(Genesis, Tx1, crypto, 0);
    CreatedOutputSpendable(Genesis, Tx1, 0, Tx5, crypto);
    var txs := [Tx1, Tx5];
    var pool := Apply(Genesis, Tx1);
    assert txs[..0] == [];
    assert !Accepts(pool, txs, 0, crypto);
    PoolBeforeNext(pool, txs, 0, crypto);
    assert Accepts(pool, txs, 1, crypto);
    AcceptedUpToNext(pool, txs, 0, crypto);
    AcceptedUpToNext(pool, txs, 1, crypto);
  }

  /** Two epochs on one handler: the first, [Tx1, Tx2], accepts only Tx1; the
      second, [Tx1, Tx5], accepts only Tx5. */
  method TwoEpochs(crypto: Crypto) returns (first: set<Transaction>, second: set<Transaction>)
    requires SignedBy(crypto, Tx1, KeyA) && SignedBy(crypto, Tx2, KeyA) && SignedBy(crypto, Tx5, KeyB)
    ensures first == {Tx1} && second == {Tx5}
  {
    var handler := new TxHandler(Genesis, crypto);
    first := handler.HandleTxs([Tx1, Tx2]);
    ConflictingSpendsOrderDecides(crypto);
    AfterTx1();
    second := handler.HandleTxs([Tx1, Tx5]);
    NextEpochAfterTx1(crypto);
  }
}
