/**
 The values a transaction handler works on: unspent-output identifiers,
 outputs, inputs and transactions, and the two cryptographic collaborators
 (signature verification and the per-input signable payload) that the
 handler calls into but does not define.
 */
module Ledger {

  /** Byte strings: transaction hashes, public keys and signatures. */
  type Bytes = seq<bv8>

  /** Identifier of one spendable output: the hash of the transaction that
      created it and the position of the output in that transaction.
      Equality is by value, as the pool's lookups need. */
  datatype UTXO = UTXO(txHash: Bytes, index: int)

  /** An output: the value it carries and the public key allowed to spend it.
      Values are exact reals (the source uses double). */
  datatype Output = Output(value: real, address: Bytes)

  /** An input: which earlier output it spends and the signature authorising it. */
  datatype Input = Input(prevTxHash: Bytes, outputIndex: int, signature: Bytes)

  /** A transaction with its content hash, computed by the collaborator and
      stable once the transaction is built. */
  datatype Transaction = Transaction(hash: Bytes, inputs: seq<Input>, outputs: seq<Output>)

  /** The pool of unspent outputs. */
  type Pool = map<UTXO, Output>

  /** The external cryptography: `verifySignature(address, payload, signature)`
      and `rawDataToSign(tx, i)`, the canonical payload signed for input `i`. */
  datatype Crypto = Crypto(
    verifySignature: (Bytes, Bytes, Bytes) -> bool,
    rawDataToSign: (Transaction, nat) -> Bytes)

  /** The unspent output an input claims. */
  function Claim(input: Input): (u: UTXO)
  {
    UTXO(input.prevTxHash, input.outputIndex)
  }

  /** The outputs claimed by the first `n` inputs. */
  function ClaimsUpTo(inputs: seq<Input>, n: nat): (s: set<UTXO>)
    requires n <= |inputs|
    ensures forall i :: 0 <= i < n ==> Claim(inputs[i]) in s
    ensures forall u :: u in s ==> exists i :: 0 <= i < n && Claim(inputs[i]) == u
  {
    set i | 0 <= i < n :: Claim(inputs[i])
  }

  /** Taking one more input claims one more output. */
  lemma ClaimsUpToNext(inputs: seq<Input>, n: nat)
    requires n < |inputs|
    ensures ClaimsUpTo(inputs, n + 1) == ClaimsUpTo(inputs, n) + {Claim(inputs[n])}
  {
  }

  /** The outputs claimed by a sequence of inputs. */
  function Claims(inputs: seq<Input>): (s: set<UTXO>)
    ensures forall i :: 0 <= i < |inputs| ==> Claim(inputs[i]) in s
    ensures forall u :: u in s ==> exists i :: 0 <= i < |inputs| && Claim(inputs[i]) == u
  {
    ClaimsUpTo(inputs, |inputs|)
  }

  /** True when output `u` is one that `tx` creates: `(tx.hash, i)` for an
      index `i` of its outputs. */
  predicate Creates(tx: Transaction, u: UTXO)
  {
    u.txHash == tx.hash && 0 <= u.index < |tx.outputs|
  }

  /** The pool entries made for the first `n` outputs of `tx`:
      `(tx.hash, i) -> tx.outputs[i]` for every `i < n`. */
  function CreatedUpTo(tx: Transaction, n: nat): (m: Pool)
    requires n <= |tx.outputs|
    ensures forall u :: u in m <==> u.txHash == tx.hash && 0 <= u.index < n
    ensures forall u :: u in m ==> m[u] == tx.outputs[u.index]
  {
    var m := map i | 0 <= i < n :: UTXO(tx.hash, i) := tx.outputs[i];
    forall u: UTXO | u.txHash == tx.hash && 0 <= u.index < n
      ensures u in m && m[u] == tx.outputs[u.index]
    {
      assert u == UTXO(tx.hash, u.index);
    }
    m
  }

  /** The entries for the first `n + 1` outputs are those for the first `n`
      plus the one for output `n`. */
  lemma CreatedUpToStep(tx: Transaction, n: nat)
    requires n < |tx.outputs|
    ensures CreatedUpTo(tx, n + 1) == CreatedUpTo(tx, n)[UTXO(tx.hash, n) := tx.outputs[n]]
  {
    var c0 := CreatedUpTo(tx, n);
    var c1 := CreatedUpTo(tx, n + 1);
    assert c1.Keys == c0.Keys + {UTXO(tx.hash, n)};
  }

  /** Inserting output `n` extends the entries made for the first `n`. */
  lemma CreatedUpToNext(pool: Pool, tx: Transaction, n: nat)
    requires n < |tx.outputs|
    ensures (pool + CreatedUpTo(tx, n))[UTXO(tx.hash, n) := tx.outputs[n]] == pool + CreatedUpTo(tx, n + 1)
  {
    CreatedUpToStep(tx, n);
  }

  /** The pool entries `tx` creates: one per output. */
  function Created(tx: Transaction): (m: Pool)
    ensures forall u :: u in m <==> Creates(tx, u)
    ensures forall u :: u in m ==> Creates(tx, u) && m[u] == tx.outputs[u.index]
  {
    CreatedUpTo(tx, |tx.outputs|)
  }
}
