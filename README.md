# UTXO transaction handler, modelled in Dafny

This project models `TxHandler`, the settlement step of a UTXO ledger. The handler
owns a pool of unspent transaction outputs. The pool maps a UTXO identifier
(the hash of the creating transaction, output index) to an output (value,
address). The handler has two operations:

- `isValidTx` accepts a transaction only when five conditions hold:
  1. every input claims an output that is in the pool;
  2. every input's signature verifies under the claimed output's address;
  3. no output is claimed twice;
  4. no output value is negative;
  5. the outputs sum to no more than the pool values of the claimed outputs.
- `handleTxs` makes one greedy pass over a batch of candidates, in the order given.
  It tests each candidate against the pool as left by the earlier acceptances.
  For each accepted candidate it removes the spent outputs, then inserts the new outputs.
  It returns the accepted candidates as a set.

Files and modules:

- `ledger.dfy` (`Ledger`): the values the handler works on. These are
  `UTXO`, `Output`, `Input`, `Transaction` and the pool type. `Crypto` holds the two
  cryptographic collaborators: signature verification and the payload signed for
  each input. The module also defines the claims of a list of inputs and the pool
  entries a transaction creates.
- `validity.dfy` (`Validity`): `ValidTx`, the five conditions stated over the whole
  transaction. It also relates them to the per-input checks the loop makes, in the
  loop's order.
- `epoch.dfy` (`Epoch`): the effect of one accepted transaction (`Apply`), the
  greedy pass as a function of the candidates (`EpochPool`, `Accepts`,
  `AcceptedSet`), and what the pass guarantees.
- `handler.dfy` (`Handler`): the class `TxHandler`, whose `utxoPool` field is a map
  that its methods update in place. Each method is proved against the functions above.
- `conservation.dfy` (`Conservation`): the total value held in a pool, and the proof
  that accepting a valid transaction, and therefore a whole epoch, never increases it.
- `scenarios.dfy` (`Scenarios`): concrete epochs. Two candidates spend the same
  output, one candidate overspends, one is signed with the wrong key, and a second
  epoch spends what the first created.

## Model

| member | source | states |
|---|---|---|
| `Handler.TxHandler.constructor` | TxHandler.java:14-16 | the handler's pool starts equal to the given pool, as its own copy |
| `Handler.TxHandler.IsValidTx` | TxHandler.java:27-56 | the input loop, the output loop and the final comparison return true exactly when `ValidTx` holds: every claim in the pool, every signature valid, no claim repeated, no negative output, outputs summing to at most the claimed pool values. The method reads the pool and changes nothing |
| `Validity.InputChecks` | TxHandler.java:33-45 | checking each input in turn (claim in the pool, signature under the claimed output's address over that input's payload, claim not among the earlier inputs' claims) holds for all inputs exactly when conditions (1) to (3) hold |
| `Validity.InputFails` | TxHandler.java:38-40 | an input that fails any of its three checks makes the transaction invalid |
| `Validity.InputsPass` | TxHandler.java:47-55 | once every input passes, validity is exactly: no negative output and output sum at most input sum |
| `Validity.SumValuesNonNegative` | TxHandler.java:48-50 | non-negative outputs sum to at least zero, and to zero exactly when every value is zero |
| `Validity.InputlessValidity` | TxHandler.java:29-55 | a transaction with no inputs is valid, against any pool, exactly when all its output values are zero; value cannot come from nothing |
| `Handler.TxHandler.HandleTxs` | TxHandler.java:63-90 | after the pass the pool equals `EpochPool` of the old pool and the candidates, and the result equals `AcceptedSet`: the candidates valid against the pool as updated by all earlier acceptances |
| `Handler.TxHandler.Commit` | TxHandler.java:72-83 | for a valid transaction, removing each claimed output (each one present when removed) and then inserting each new output leaves exactly `Apply` of the old pool |
| `Epoch.Apply` | TxHandler.java:72-83 | the new pool holds an identifier exactly when the transaction creates it, or when it was in the old pool and is not claimed. Created entries carry the transaction's outputs. Every other entry keeps its old value |
| `Ledger.Created` | TxHandler.java:78-83 | the inserted entries are exactly `(tx.hash, i) -> tx.outputs[i]` for every output index `i` |
| `Epoch.AcceptedSet` | TxHandler.java:65-70 | the result is exactly the accepted candidates: every returned transaction is a candidate that passed against the pool it met, and every such candidate is returned |
| `Epoch.PoolBeforeNext` | TxHandler.java:68-85 | a candidate moves the pool by `Apply` when it is accepted and leaves it unchanged when it is rejected |
| `Epoch.EpochKeepsNonNegative` | TxHandler.java:68-85 | a pool with no negative value keeps none through an epoch, because only outputs that passed the negative check are inserted |
| `Epoch.Provenance` | TxHandler.java:68-85 | every identifier in the pool during an epoch was in the starting pool or was created by an earlier accepted candidate |
| `Epoch.StaysAbsent` | TxHandler.java:68-85 | an identifier absent from the pool stays absent until an accepted candidate creates it |
| `Epoch.NoDoubleSpend` | TxHandler.java:68-85 | when two accepted candidates `i < j` claim the same output, an accepted candidate from `i` up to (not including) `j` re-created it in between |
| `Epoch.NoDoubleSpendFreshHashes` | TxHandler.java:68-85 | when candidate hashes are distinct and new to the pool, no output is claimed by two accepted candidates of one epoch |
| `Epoch.ResubmitRejected` | TxHandler.java:72-76 | after a transaction is applied, an output it claimed (and did not itself re-create) is gone, so presenting the same transaction again is rejected |
| `Epoch.CreatedOutputSpendable` | TxHandler.java:78-83 | an output created by an accepted transaction can be spent afterwards by a correctly signed one-input transaction that does not overspend it |
| `Epoch.InputlessReapplied` | TxHandler.java:65-83 | a transaction with no inputs is accepted again whenever it was accepted before, and applying it twice leaves the same pool as applying it once |
| `Conservation.TotalAfterRemovingClaims` | TxHandler.java:72-76 | removing the outputs claimed by the inputs, each present and none claimed twice, lowers the pool's total value by exactly the claimed pool values |
| `Conservation.TotalAfterInserting` | TxHandler.java:78-83 | inserting the non-negative outputs keeps the pool free of negative values, and raises its total by at most the output sum (an overwritten entry only lowers it) |
| `Conservation.ApplyConserves` | TxHandler.java:54-83 | accepting a valid transaction into a pool with no negative value leaves a total of at most the old total minus the claimed values plus the output values, so the total does not grow |
| `Conservation.EpochConserves` | TxHandler.java:63-90 | an epoch never increases the total value of a pool with no negative value |
| `Scenarios.SpendsU1` | TxHandler.java:27-56 | a correctly signed transaction spending the 10-valued U1 with non-negative outputs worth at most 10 is valid against the starting pool |
| `Scenarios.AfterTx1` | TxHandler.java:72-83 | accepting Tx1 replaces U1 by (H1, 0) worth 10 for B |
| `Scenarios.AfterTx2` | TxHandler.java:72-83 | accepting Tx2 replaces U1 by (H2, 0) worth 4 for C |
| `Scenarios.FirstOfConflictingPairWins` | TxHandler.java:68-85 | of two candidates that spend U1, the first presented is accepted and the second rejected |
| `Scenarios.ConflictingSpendsOrderDecides` | TxHandler.java:63-90 | batch [Tx1, Tx2] accepts {Tx1} and leaves only (H1, 0); batch [Tx2, Tx1] accepts {Tx2} and leaves only (H2, 0) |
| `Scenarios.OverspendRejected` | TxHandler.java:54-55 | Tx3, paying 11 out of an input worth 10, is rejected whatever the signatures |
| `Scenarios.WrongKeyRejected` | TxHandler.java:39 | Tx4, whose signature does not verify under U1's address, is rejected |
| `Scenarios.NextEpochAfterTx1` | TxHandler.java:63-90 | after Tx1 is accepted, a later batch [Tx1, Tx5] accepts only Tx5: Tx1's input is spent, and Tx5 spends Tx1's new output |
| `Scenarios.TwoEpochs` | TxHandler.java:14-90 | a handler built on the starting pool returns {Tx1} for [Tx1, Tx2] and then {Tx5} for [Tx1, Tx5] |

## Left out

- The signature check `Crypto.verifySignature` and `Transaction.getRawDataToSign` are
  foreign code whose source is not part of this model. They are the two function
  fields of `Crypto`, a value fixed when the handler is built. The Java
  constructor takes only the pool: `Crypto.verifySignature` is static, and
  `getRawDataToSign` is an instance method of the transaction (TxHandler.java:39).
  The model treats the signed payload as a fixed function of the transaction and
  the input index.
- `Transaction.getHash` is a field of the `Transaction` datatype: the hash is
  computed outside and is stable.
- `UTXOPool` and `UTXO` are not part of this model. The pool is a `map` value, so the
  constructor's defensive copy is simply the map, and no aliasing can arise.
  `UTXO` equality is value equality on (hash, index), as the pool's lookups need.
- Values are Java `double` in the source. Here they are exact `real`s, so rounding,
  NaN and infinities are not modelled.
- The order of the array that `handleTxs` returns comes from a `HashSet` and is
  unspecified. The model returns a `set`. Equality between transactions is value
  equality, since `Transaction.equals` is not part of this model.
- Output indexes are unbounded integers. Java `int` overflow cannot arise for
  indexes below an output count.
- `isValidTx` fetches the claimed output before it tests membership. The fetched
  value is only used after the test, so the model fetches after the test.
- `Handler.TxHandler.Commit` is the removal and insertion loops of `handleTxs`
  (lines 72-83) as a method of its own. Its precondition, a valid transaction,
  holds at its only call.
- `UTXOPool.removeUTXO` on an absent identifier (TxHandler.java:75) does not
  arise: `Commit` proves every removed entry present.
- Concurrency: none exists, and the class is not thread-safe.
- `Epoch.NoDoubleSpend` states the epoch guarantee without assuming distinct hashes.
  A later accepted candidate whose hash equals a spent output's hash re-creates
  that output, and then the output can be spent again.
  `Epoch.NoDoubleSpendFreshHashes` gives the plain "never spent twice" form, under
  distinct fresh hashes.
- The Javadoc (TxHandler.java:19-25) lists conditions (1) to (5) over the whole
  transaction, while the code checks (1) to (3) together, input by input.
  `Validity.InputChecks` proves the two agree, and the model follows the code.
