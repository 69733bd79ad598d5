/**
 * The ledger vocabulary shared by every handler: unspent outputs, transactions,
 * the UTXO pool, the five-condition validity oracle, and the effect of committing
 * a transaction to a pool.
 *
 * Transaction hashes, addresses and signatures are opaque values compared only
 * for equality. Output values are integers (the source uses `double`). The
 * signature check is a parameter: `verify(address, tx, i)` answers whether the
 * signature of input `i` of `tx` verifies under `address` over that input's
 * signing payload.
 */
module Ledger {

  type Hash = int
  type Address = int
  type Signature = int

  datatype Option<T> = None | Some(value: T)

  datatype Output = Output(address: Address, value: int)

  /** Identity of one unspent output: producing transaction and output position. */
  datatype UTXO = UTXO(txHash: Hash, index: int)

  datatype Input = Input(prevTxHash: Hash, outputIndex: int, signature: Signature)

  datatype Tx = Tx(hash: Hash, inputs: seq<Input>, outputs: seq<Output>)

  type Pool = map<UTXO, Output>

  type SigOracle = (Address, Tx, nat) -> bool

  /** The output an input claims. */
  function Claim(inp: Input): UTXO
  {
    UTXO(inp.prevTxHash, inp.outputIndex)
  }

  // ---------------------------------------------------------------------------
  // The validity oracle, condition by condition
  // ---------------------------------------------------------------------------

  /** Condition (1): every claimed output is in the pool. */
  predicate InputsPresent(pool: Pool, tx: Tx)
  {
    forall i | 0 <= i < |tx.inputs| :: Claim(tx.inputs[i]) in pool
  }

  /** Condition (2): every input's signature verifies under the claimed output's address. */
  predicate SignaturesValid(verify: SigOracle, pool: Pool, tx: Tx)
    requires InputsPresent(pool, tx)
  {
    forall i | 0 <= i < |tx.inputs| :: verify(pool[Claim(tx.inputs[i])].address, tx, i)
  }

  /** Condition (3): no output is claimed by two inputs. */
  predicate NoDoubleClaim(tx: Tx)
  {
    forall i, j | 0 <= i < j < |tx.inputs| :: Claim(tx.inputs[i]) != Claim(tx.inputs[j])
  }

  /** Condition (4): no output value is negative. */
  predicate OutputsNonNegative(tx: Tx)
  {
    forall i | 0 <= i < |tx.outputs| :: tx.outputs[i].value >= 0
  }

  /** Sum of the values of the outputs claimed by `ins`. */
  function InputSum(pool: Pool, ins: seq<Input>): int
    requires forall i | 0 <= i < |ins| :: Claim(ins[i]) in pool
  {
    if ins == [] then 0
    else InputSum(pool, ins[..|ins| - 1]) + pool[Claim(ins[|ins| - 1])].value
  }

  function OutputSum(outs: seq<Output>): int
  {
    if outs == [] then 0 else OutputSum(outs[..|outs| - 1]) + outs[|outs| - 1].value
  }

  /** The five conditions of the validity oracle, (5) being "inputs cover outputs". */
  predicate ValidTx(verify: SigOracle, pool: Pool, tx: Tx)
  {
    && InputsPresent(pool, tx)
    && SignaturesValid(verify, pool, tx)
    && NoDoubleClaim(tx)
    && OutputsNonNegative(tx)
    && InputSum(pool, tx.inputs) >= OutputSum(tx.outputs)
  }

  /** The fee: claimed input value minus produced output value. */
  function Fee(pool: Pool, tx: Tx): (f: int)
    requires InputsPresent(pool, tx)
    ensures f + OutputSum(tx.outputs) == InputSum(pool, tx.inputs)
  {
    InputSum(pool, tx.inputs) - OutputSum(tx.outputs)
  }

  /** A transaction the oracle accepts pays a non-negative fee. */
  lemma ValidTxFeeNonNegative(verify: SigOracle, pool: Pool, tx: Tx)
    requires ValidTx(verify, pool, tx)
    ensures Fee(pool, tx) >= 0
    ensures forall i | 0 <= i < |tx.inputs| :: Claim(tx.inputs[i]) in pool
  {
  }

  /**
   * The input pass of the oracle: one sweep over the inputs with a `used` set
   * and a running balance, stopping at the first input whose output is missing,
   * whose signature fails, or whose output was already claimed.
   */
  method CheckInputs(verify: SigOracle, pool: Pool, tx: Tx) returns (ok: bool, balance: int)
    ensures ok == (InputsPresent(pool, tx) && SignaturesValid(verify, pool, tx) && NoDoubleClaim(tx))
    ensures ok ==> balance == InputSum(pool, tx.inputs)
  {
    balance := 0;
    var used: set<UTXO> := {};
    var i := 0;
    while i < |tx.inputs|
      invariant 0 <= i <= |tx.inputs|
      invariant forall k | 0 <= k < i :: Claim(tx.inputs[k]) in pool
      invariant forall k | 0 <= k < i :: verify(pool[Claim(tx.inputs[k])].address, tx, k)
      invariant forall k, l | 0 <= k < l < i :: Claim(tx.inputs[k]) != Claim(tx.inputs[l])
      invariant used == set k | 0 <= k < i :: Claim(tx.inputs[k])
      invariant balance == InputSum(pool, tx.inputs[..i])
    {
      var utxo := Claim(tx.inputs[i]);
      if utxo !in pool {
        assert !InputsPresent(pool, tx);
        return false, balance;
      }
      var previous := pool[utxo];
      if !verify(previous.address, tx, i) {
        assert InputsPresent(pool, tx) ==> !SignaturesValid(verify, pool, tx);
        return false, balance;
      }
      if utxo in used {
        ghost var k :| 0 <= k < i && Claim(tx.inputs[k]) == utxo;
        assert !NoDoubleClaim(tx);
        return false, balance;
      }
      used := used + {utxo};
      assert tx.inputs[..i + 1][..i] == tx.inputs[..i];
      balance := balance + previous.value;
      i := i + 1;
    }
    assert tx.inputs[..i] == tx.inputs;
    ok := true;
  }

  /**
   * The oracle as the source runs it: the input pass, then one pass over the
   * outputs subtracting each value from the balance, returning false at the
   * first failed condition.
   */
  method CheckTx(verify: SigOracle, pool: Pool, tx: Tx) returns (ok: bool)
    ensures ok == ValidTx(verify, pool, tx)
  {
    var inputsOk, balance := CheckInputs(verify, pool, tx);
    if !inputsOk {
      return false;
    }
    var j := 0;
    while j < |tx.outputs|
      invariant 0 <= j <= |tx.outputs|
      invariant forall k | 0 <= k < j :: tx.outputs[k].value >= 0
      invariant balance == InputSum(pool, tx.inputs) - OutputSum(tx.outputs[..j])
    {
      if tx.outputs[j].value < 0 {
        assert !OutputsNonNegative(tx);
        return false;
      }
      assert tx.outputs[..j + 1][..j] == tx.outputs[..j];
      balance := balance - tx.outputs[j].value;
      j := j + 1;
    }
    assert tx.outputs[..j] == tx.outputs;
    return balance >= 0;
  }

  /** Two pools that agree on every claimed output give the same input sum. */
  lemma {:induction false} InputSumAgree(p: Pool, q: Pool, ins: seq<Input>)
    requires forall i | 0 <= i < |ins| :: Claim(ins[i]) in p && Claim(ins[i]) in q
    requires forall i | 0 <= i < |ins| :: p[Claim(ins[i])] == q[Claim(ins[i])]
    ensures InputSum(p, ins) == InputSum(q, ins)
  {
    if ins != [] {
      InputSumAgree(p, q, ins[..|ins| - 1]);
    }
  }

  /**
   * Overlaying a pool with extra outputs (the source's `tempPool`, looked up only
   * when the confirmed pool lacks the output) never invalidates a transaction
   * that is valid against the confirmed pool alone.
   */
  lemma ValidWithoutOverlayIsValidWithOverlay(verify: SigOracle, pool: Pool, temp: Pool, tx: Tx)
    requires ValidTx(verify, pool, tx)
    ensures ValidTx(verify, temp + pool, tx)
  {
    var both := temp + pool;
    assert forall i | 0 <= i < |tx.inputs| :: both[Claim(tx.inputs[i])] == pool[Claim(tx.inputs[i])];
    InputSumAgree(pool, both, tx.inputs);
  }

  // ---------------------------------------------------------------------------
  // Committing a transaction
  // ---------------------------------------------------------------------------

  /** The outputs a transaction claims. */
  function Spent(tx: Tx): set<UTXO>
  {
    set i | 0 <= i < |tx.inputs| :: Claim(tx.inputs[i])
  }

  /** The outputs a transaction creates, keyed by its hash and position. */
  function Created(tx: Tx): (m: Pool)
    ensures forall i | 0 <= i < |tx.outputs| :: UTXO(tx.hash, i) in m && m[UTXO(tx.hash, i)] == tx.outputs[i]
    ensures forall u | u in m :: u.txHash == tx.hash && 0 <= u.index < |tx.outputs|
  {
    map i | 0 <= i < |tx.outputs| :: UTXO(tx.hash, i) := tx.outputs[i]
  }

  /** A commit removes the claimed outputs, then adds the created ones. */
  function Apply(pool: Pool, tx: Tx): Pool
  {
    (pool - Spent(tx)) + Created(tx)
  }

  /**
   * After a commit the created outputs are present, the claimed ones that it
   * does not re-create are gone, every other output is untouched, and nothing
   * else appears.
   */
  lemma ApplyEffect(pool: Pool, tx: Tx)
    ensures forall u | u in Created(tx) :: u in Apply(pool, tx) && Apply(pool, tx)[u] == Created(tx)[u]
    ensures forall u | u in Spent(tx) && u !in Created(tx) :: u !in Apply(pool, tx)
    ensures forall u | u in pool && u !in Spent(tx) && u !in Created(tx) ::
      u in Apply(pool, tx) && Apply(pool, tx)[u] == pool[u]
    ensures Apply(pool, tx).Keys <= pool.Keys + Created(tx).Keys
  {
  }

  /** Adds a transaction's outputs to a pool, one position at a time. */
  method AddOutputs(pool: Pool, tx: Tx) returns (r: Pool)
    ensures r == pool + Created(tx)
  {
    r := pool;
    var i := 0;
    while i < |tx.outputs|
      invariant 0 <= i <= |tx.outputs|
      invariant forall u :: u in r <==> u in pool || (u.txHash == tx.hash && 0 <= u.index < i)
      invariant forall u | u in r :: r[u] == if u.txHash == tx.hash && 0 <= u.index < i then tx.outputs[u.index] else pool[u]
    {
      r := r[UTXO(tx.hash, i) := tx.outputs[i]];
      i := i + 1;
    }
    assert r.Keys == (pool + Created(tx)).Keys;
  }

  /** Commits a transaction: removes every claimed output, then adds the created ones. */
  method ApplyTx(pool: Pool, tx: Tx) returns (r: Pool)
    ensures r == Apply(pool, tx)
  {
    r := pool;
    var i := 0;
    while i < |tx.inputs|
      invariant 0 <= i <= |tx.inputs|
      invariant r == pool - (set k | 0 <= k < i :: Claim(tx.inputs[k]))
    {
      r := r - {Claim(tx.inputs[i])};
      i := i + 1;
    }
    r := AddOutputs(r, tx);
  }

  // ---------------------------------------------------------------------------
  // Sequences of commits
  // ---------------------------------------------------------------------------

  /** The pool after committing `txs` in order, validity aside. */
  function PoolAfter(pool: Pool, txs: seq<Tx>): Pool
  {
    if txs == [] then pool else Apply(PoolAfter(pool, txs[..|txs| - 1]), txs[|txs| - 1])
  }

  /** Every transaction of `txs` is valid against the pool its predecessors leave. */
  predicate ValidSequence(verify: SigOracle, pool: Pool, txs: seq<Tx>)
  {
    txs == [] ||
    (ValidSequence(verify, pool, txs[..|txs| - 1]) &&
     ValidTx(verify, PoolAfter(pool, txs[..|txs| - 1]), txs[|txs| - 1]))
  }

  /** `a` is `b` with some elements deleted. */
  predicate SubseqOf<T(==)>(a: seq<T>, b: seq<T>)
  {
    if b == [] then a == []
    else
      (a != [] && a[|a| - 1] == b[|b| - 1] && SubseqOf(a[..|a| - 1], b[..|b| - 1]))
      || SubseqOf(a, b[..|b| - 1])
  }

  /**
   * One sweep over candidates: each candidate valid against the current pool is
   * committed at once; the others are skipped. Returns the final pool and the
   * committed candidates in commit order.
   */
  function CommitPass(verify: SigOracle, pool: Pool, txs: seq<Tx>): (Pool, seq<Tx>)
  {
    if txs == [] then (pool, [])
    else
      var r := CommitPass(verify, pool, txs[..|txs| - 1]);
      var t := txs[|txs| - 1];
      if ValidTx(verify, r.0, t) then (Apply(r.0, t), r.1 + [t]) else r
  }

  /** The last element and the rest of a sequence with one element appended. */
  lemma SnocInit<T>(s: seq<T>, x: T)
    ensures (s + [x])[..|s|] == s && (s + [x])[|s|] == x
  {
  }

  /**
   * What a sweep commits is a subsequence of its candidates, each valid at its
   * commit point, and the sweep's pool is exactly their successive effect.
   */
  lemma {:induction false} CommitPassSound(verify: SigOracle, pool: Pool, txs: seq<Tx>)
    ensures ValidSequence(verify, pool, CommitPass(verify, pool, txs).1)
    ensures CommitPass(verify, pool, txs).0 == PoolAfter(pool, CommitPass(verify, pool, txs).1)
    ensures SubseqOf(CommitPass(verify, pool, txs).1, txs)
  {
    if txs != [] {
      var prefix := txs[..|txs| - 1];
      CommitPassSound(verify, pool, prefix);
      var r := CommitPass(verify, pool, prefix);
      var t := txs[|txs| - 1];
      if ValidTx(verify, r.0, t) {
        SnocInit(r.1, t);
      }
    }
  }

  /** A sweep that commits nothing leaves the pool alone and found every candidate invalid. */
  lemma {:induction false} CommitPassQuiescent(verify: SigOracle, pool: Pool, txs: seq<Tx>)
    requires CommitPass(verify, pool, txs).1 == []
    ensures CommitPass(verify, pool, txs).0 == pool
    ensures forall i | 0 <= i < |txs| :: !ValidTx(verify, pool, txs[i])
  {
    if txs != [] {
      var prefix := txs[..|txs| - 1];
      var r := CommitPass(verify, pool, prefix);
      var t := txs[|txs| - 1];
      if ValidTx(verify, r.0, t) {
        assert false;
      } else {
        CommitPassQuiescent(verify, pool, prefix);
        forall i | 0 <= i < |txs|
          ensures !ValidTx(verify, pool, txs[i])
        {
          if i < |txs| - 1 {
            assert txs[i] == prefix[i];
          }
        }
      }
    }
  }

  /** Every element of a subsequence is an element of the whole. */
  lemma {:induction false} SubseqMembers<T>(a: seq<T>, b: seq<T>)
    requires SubseqOf(a, b)
    ensures forall x | x in a :: x in b
    ensures |a| <= |b|
  {
    if b != [] {
      var b' := b[..|b| - 1];
      if a != [] && a[|a| - 1] == b[|b| - 1] && SubseqOf(a[..|a| - 1], b') {
        SubseqMembers(a[..|a| - 1], b');
        assert a == a[..|a| - 1] + [a[|a| - 1]];
      } else {
        SubseqMembers(a, b');
      }
    }
  }

  /** A valid sequence is valid on every prefix, and each element is valid where it stands. */
  lemma {:induction false} ValidSequencePrefix(verify: SigOracle, pool: Pool, txs: seq<Tx>, k: nat)
    requires ValidSequence(verify, pool, txs)
    requires k <= |txs|
    ensures ValidSequence(verify, pool, txs[..k])
    ensures k < |txs| ==> ValidTx(verify, PoolAfter(pool, txs[..k]), txs[k])
    decreases |txs| - k
  {
    if k < |txs| {
      var pre := txs[..|txs| - 1];
      ValidSequencePrefix(verify, pool, pre, k);
      assert pre[..k] == txs[..k];
      if k < |pre| {
        assert pre[k] == txs[k];
      }
    } else {
      assert txs[..k] == txs;
    }
  }

  /** Committing `a` then `b` is committing `a + b`. */
  lemma {:induction false} PoolAfterConcat(pool: Pool, a: seq<Tx>, b: seq<Tx>)
    ensures PoolAfter(pool, a + b) == PoolAfter(PoolAfter(pool, a), b)
  {
    if b == [] {
      assert a + b == a;
    } else {
      var b' := b[..|b| - 1];
      PoolAfterConcat(pool, a, b');
      ConcatInit(a, b);
    }
  }

  /** The last element and the rest of a concatenation with a non-empty right part. */
  lemma ConcatInit<T>(a: seq<T>, b: seq<T>)
    requires b != []
    ensures (a + b)[..|a + b| - 1] == a + b[..|b| - 1]
    ensures (a + b)[|a + b| - 1] == b[|b| - 1]
  {
  }

  /** Two valid sequences run back to back form one valid sequence. */
  lemma {:induction false} ValidSequenceConcat(verify: SigOracle, pool: Pool, a: seq<Tx>, b: seq<Tx>)
    requires ValidSequence(verify, pool, a)
    requires ValidSequence(verify, PoolAfter(pool, a), b)
    ensures ValidSequence(verify, pool, a + b)
  {
    if b == [] {
      assert a + b == a;
    } else {
      ValidSequenceConcat(verify, pool, a, b[..|b| - 1]);
      PoolAfterConcat(pool, a, b[..|b| - 1]);
      ConcatInit(a, b);
    }
  }

  /** Committing one more transaction applies it to the pool left by the others. */
  lemma PoolAfterSnoc(pool: Pool, txs: seq<Tx>, t: Tx)
    ensures PoolAfter(pool, txs + [t]) == Apply(PoolAfter(pool, txs), t)
  {
    assert (txs + [t])[..|txs|] == txs;
  }

  /** Hashes of the transactions that produced the outputs of a pool. */
  function HashesOf(pool: Pool): set<Hash>
  {
    set u | u in pool :: u.txHash
  }

  function TxHashes(txs: seq<Tx>): set<Hash>
  {
    set i | 0 <= i < |txs| :: txs[i].hash
  }

  /**
   * The hashes of `txs` are pairwise distinct and name no output already in
   * `pool`: what collision-free, content-derived hashes give a fresh batch.
   */
  predicate FreshHashes(pool: Pool, txs: seq<Tx>)
  {
    && (forall i | 0 <= i < |txs| :: txs[i].hash !in HashesOf(pool))
    && (forall i, j | 0 <= i < j < |txs| :: txs[i].hash != txs[j].hash)
  }

  /** Every output left after a run of commits was produced by the pool or by the run. */
  lemma {:induction false} PoolAfterHashes(pool: Pool, txs: seq<Tx>)
    ensures forall u | u in PoolAfter(pool, txs) :: u.txHash in HashesOf(pool) || u.txHash in TxHashes(txs)
  {
    if txs != [] {
      var pre, t := txs[..|txs| - 1], txs[|txs| - 1];
      PoolAfterHashes(pool, pre);
      var p := PoolAfter(pool, pre);
      forall u | u in Apply(p, t)
        ensures u.txHash in HashesOf(pool) || u.txHash in TxHashes(txs)
      {
        if u in Created(t) {
          assert txs[|txs| - 1].hash == u.txHash;
        } else {
          assert u in p;
          if u.txHash !in HashesOf(pool) {
            var m :| 0 <= m < |pre| && pre[m].hash == u.txHash;
            assert txs[m].hash == u.txHash;
          }
        }
      }
    }
  }

  /** In a valid run, each transaction claims outputs of the pool or of earlier transactions. */
  lemma ClaimHashes(verify: SigOracle, pool: Pool, txs: seq<Tx>, i: nat)
    requires ValidSequence(verify, pool, txs) && i < |txs|
    ensures forall u | u in Spent(txs[i]) :: u.txHash in HashesOf(pool) || u.txHash in TxHashes(txs[..i])
  {
    ValidSequencePrefix(verify, pool, txs, i);
    PoolAfterHashes(pool, txs[..i]);
  }

  /** A fresh hash is not the hash of any earlier transaction. */
  lemma FreshNotEarlier(pool: Pool, txs: seq<Tx>, i: nat, j: nat)
    requires FreshHashes(pool, txs) && i <= j < |txs|
    ensures txs[j].hash !in HashesOf(pool) && txs[j].hash !in TxHashes(txs[..i])
  {
  }

  /**
   * Along a valid sequence of commits with fresh hashes, an output once spent
   * never comes back: every claim of every committed transaction is absent from
   * the final pool.
   */
  lemma {:induction false} SpentStaysSpent(verify: SigOracle, pool: Pool, txs: seq<Tx>)
    requires ValidSequence(verify, pool, txs)
    requires FreshHashes(pool, txs)
    ensures forall i | 0 <= i < |txs| :: Spent(txs[i]) !! PoolAfter(pool, txs).Keys
  {
    if txs != [] {
      var pre := txs[..|txs| - 1];
      FreshPrefix(pool, txs, |txs| - 1);
      SpentStaysSpent(verify, pool, pre);
      forall i | 0 <= i < |txs|
        ensures Spent(txs[i]) !! PoolAfter(pool, txs).Keys
      {
        SpentGoneAfterLast(verify, pool, txs, pre, i);
      }
    }
  }

  /** A prefix of a freshly hashed sequence is freshly hashed. */
  lemma FreshPrefix(pool: Pool, txs: seq<Tx>, k: nat)
    requires FreshHashes(pool, txs) && k <= |txs|
    ensures FreshHashes(pool, txs[..k])
  {
    assert forall i | 0 <= i < k :: txs[..k][i] == txs[i];
  }

  /** The step of `SpentStaysSpent`: committing the last transaction does not bring back a claim of transaction `i`. */
  lemma SpentGoneAfterLast(verify: SigOracle, pool: Pool, txs: seq<Tx>, pre: seq<Tx>, i: nat)
    requires ValidSequence(verify, pool, txs) && FreshHashes(pool, txs)
    requires txs != [] && i < |txs| && pre == txs[..|txs| - 1]
    requires forall m | 0 <= m < |pre| :: Spent(pre[m]) !! PoolAfter(pool, pre).Keys
    ensures Spent(txs[i]) !! PoolAfter(pool, txs).Keys
  {
    var t := txs[|txs| - 1];
    ClaimHashes(verify, pool, txs, i);
    FreshNotEarlier(pool, txs, i, |txs| - 1);
    ApplyEffect(PoolAfter(pool, pre), t);
    if i < |pre| {
      assert pre[i] == txs[i];
    }
  }

  /** No two transactions of `txs` claim the same output. */
  ghost predicate DisjointSpends(txs: seq<Tx>)
  {
    forall i, j {:trigger Spent(txs[i]), Spent(txs[j])} | 0 <= i < j < |txs| :: Spent(txs[i]) !! Spent(txs[j])
  }

  /** No two transactions of a valid, freshly hashed sequence claim the same output. */
  lemma NoDoubleSpend(verify: SigOracle, pool: Pool, txs: seq<Tx>)
    requires ValidSequence(verify, pool, txs)
    requires FreshHashes(pool, txs)
    ensures DisjointSpends(txs)
  {
    forall i, j | 0 <= i < j < |txs|
      ensures Spent(txs[i]) !! Spent(txs[j])
    {
      var pre := txs[..j];
      ValidSequencePrefix(verify, pool, txs, j);
      assert FreshHashes(pool, pre) by {
        assert forall k | 0 <= k < |pre| :: pre[k] == txs[k];
      }
      SpentStaysSpent(verify, pool, pre);
      assert pre[i] == txs[i];
    }
  }

  /**
   * Committing one more transaction keeps the hashes fresh when the transaction
   * spends at least one output, names no pooled output, and shares its hash only
   * with identical transactions: a transaction already committed has lost its
   * inputs and cannot be valid again.
   */
  lemma ExtendFresh(verify: SigOracle, pool: Pool, txs: seq<Tx>, t: Tx)
    requires ValidSequence(verify, pool, txs)
    requires FreshHashes(pool, txs)
    requires ValidTx(verify, PoolAfter(pool, txs), t)
    requires |t.inputs| > 0
    requires t.hash !in HashesOf(pool)
    requires forall i | 0 <= i < |txs| :: txs[i].hash == t.hash ==> txs[i] == t
    ensures FreshHashes(pool, txs + [t])
    ensures ValidSequence(verify, pool, txs + [t])
    ensures t !in txs
  {
    SpentStaysSpent(verify, pool, txs);
    NotCommittedYet(PoolAfter(pool, txs), txs, t);
    SnocInit(txs, t);
  }

  /**
   * A transaction whose first claim is still pooled is none of the committed
   * transactions, all of whose claims are gone, nor anything sharing a hash
   * with one of them.
   */
  lemma NotCommittedYet(live: Pool, txs: seq<Tx>, t: Tx)
    requires forall i | 0 <= i < |txs| :: Spent(txs[i]) !! live.Keys
    requires |t.inputs| > 0 && Claim(t.inputs[0]) in live
    requires forall i | 0 <= i < |txs| :: txs[i].hash == t.hash ==> txs[i] == t
    ensures forall i | 0 <= i < |txs| :: txs[i].hash != t.hash
  {
    var c := Claim(t.inputs[0]);
    assert c in Spent(t);
  }

  /** Within a batch, equal hashes mean equal transactions (hashes are content-derived). */
  predicate HashesIdentify(txs: seq<Tx>)
  {
    forall t, t' | t in txs && t' in txs :: t.hash == t'.hash ==> t == t'
  }

  /**
   * A batch whose candidates each spend an output, name no output of `pool`
   * and are identified by their hashes, as content-derived hashes guarantee.
   */
  predicate FreshBatch(pool: Pool, txs: seq<Tx>)
  {
    && (forall i | 0 <= i < |txs| :: |txs[i].inputs| > 0 && txs[i].hash !in HashesOf(pool))
    && HashesIdentify(txs)
  }

  /** Candidates drawn from a fresh batch form a fresh batch. */
  lemma FreshBatchSub(pool: Pool, txs: seq<Tx>, sub: seq<Tx>)
    requires FreshBatch(pool, txs)
    requires forall i | 0 <= i < |sub| :: sub[i] in txs
    ensures FreshBatch(pool, sub)
  {
    forall i | 0 <= i < |sub|
      ensures |sub[i].inputs| > 0 && sub[i].hash !in HashesOf(pool)
    {
      var j :| 0 <= j < |txs| && txs[j] == sub[i];
    }
  }

  lemma ConcatAssoc<T>(a: seq<T>, b: seq<T>, c: seq<T>)
    ensures a + b + c == a + (b + c)
  {
  }

  /** Members of an identified batch with the hash of a batch member are that member. */
  lemma IdentifiedBy(batch: seq<Tx>, s: seq<Tx>, t: Tx)
    requires HashesIdentify(batch) && t in batch
    requires forall i | 0 <= i < |s| :: s[i] in batch
    ensures forall i | 0 <= i < |s| :: s[i].hash == t.hash ==> s[i] == t
  {
  }

  /** One more commit of a batch member keeps a valid, freshly hashed sequence drawn from the batch so. */
  lemma FreshStep(verify: SigOracle, pool: Pool, batch: seq<Tx>, done: seq<Tx>, swept: seq<Tx>, t: Tx)
    requires FreshBatch(pool, batch) && t in batch
    requires ValidSequence(verify, pool, done + swept) && FreshHashes(pool, done + swept)
    requires forall i | 0 <= i < |done| :: done[i] in batch
    requires forall x | x in swept :: x in batch
    requires ValidTx(verify, PoolAfter(pool, done + swept), t)
    ensures ValidSequence(verify, pool, done + (swept + [t])) && FreshHashes(pool, done + (swept + [t]))
  {
    var seen := done + swept;
    forall i | 0 <= i < |seen|
      ensures seen[i] in batch
    {
      if i >= |done| {
        assert seen[i] == swept[i - |done|];
      }
    }
    IdentifiedBy(batch, seen, t);
    ConcatAssoc(done, swept, [t]);
    ExtendFresh(verify, pool, seen, t);
  }

  /**
   * A sweep over candidates drawn from a fresh batch, run after a freshly hashed
   * valid sequence `done` drawn from the same batch, extends it to a freshly
   * hashed valid sequence.
   */
  lemma {:induction false} CommitPassFreshAfter(verify: SigOracle, pool: Pool, batch: seq<Tx>, done: seq<Tx>, txs: seq<Tx>)
    requires FreshBatch(pool, batch)
    requires ValidSequence(verify, pool, done) && FreshHashes(pool, done)
    requires forall i | 0 <= i < |done| :: done[i] in batch
    requires forall i | 0 <= i < |txs| :: txs[i] in batch
    ensures var swept := CommitPass(verify, PoolAfter(pool, done), txs).1;
      ValidSequence(verify, pool, done + swept) && FreshHashes(pool, done + swept)
  {
    if txs == [] {
      assert done + [] == done;
    } else {
      var prefix := txs[..|txs| - 1];
      var t := txs[|txs| - 1];
      CommitPassFreshAfter(verify, pool, batch, done, prefix);
      var r := CommitPass(verify, PoolAfter(pool, done), prefix);
      CommitPassSound(verify, PoolAfter(pool, done), prefix);
      PoolAfterConcat(pool, done, r.1);
      if ValidTx(verify, r.0, t) {
        SubseqMembers(r.1, prefix);
        FreshStep(verify, pool, batch, done, r.1, t);
      }
    }
  }

  /** A sweep over a fresh batch commits a freshly hashed sequence. */
  lemma CommitPassFresh(verify: SigOracle, pool: Pool, txs: seq<Tx>)
    requires FreshBatch(pool, txs)
    ensures FreshHashes(pool, CommitPass(verify, pool, txs).1)
  {
    CommitPassFreshAfter(verify, pool, txs, [], txs);
    assert [] + CommitPass(verify, pool, txs).1 == CommitPass(verify, pool, txs).1;
  }

  /** Such a sweep never commits two transactions that claim the same output. */
  lemma CommitPassNoDoubleSpend(verify: SigOracle, pool: Pool, txs: seq<Tx>)
    requires FreshBatch(pool, txs)
    ensures DisjointSpends(CommitPass(verify, pool, txs).1)
  {
    CommitPassFresh(verify, pool, txs);
    CommitPassSound(verify, pool, txs);
    NoDoubleSpend(verify, pool, CommitPass(verify, pool, txs).1);
  }

  /** The outputs of every transaction of `txs`, keyed by hash and output position; later ones win. */
  function BatchOutputs(txs: seq<Tx>): Pool
  {
    if txs == [] then map[] else BatchOutputs(txs[..|txs| - 1]) + Created(txs[|txs| - 1])
  }

  /** The pool holds exactly the output positions of the transactions. */
  lemma {:induction false} BatchOutputsKeys(txs: seq<Tx>)
    ensures forall u :: u in BatchOutputs(txs) <==>
      exists i | 0 <= i < |txs| :: u.txHash == txs[i].hash && 0 <= u.index < |txs[i].outputs|
  {
    if txs != [] {
      var pre, t := txs[..|txs| - 1], txs[|txs| - 1];
      BatchOutputsKeys(pre);
      forall u
        ensures u in BatchOutputs(txs) <==>
          exists i | 0 <= i < |txs| :: u.txHash == txs[i].hash && 0 <= u.index < |txs[i].outputs|
      {
        if u in BatchOutputs(pre) {
          var i :| 0 <= i < |pre| && u.txHash == pre[i].hash && 0 <= u.index < |pre[i].outputs|;
          assert txs[i] == pre[i];
        } else if exists i | 0 <= i < |txs| :: u.txHash == txs[i].hash && 0 <= u.index < |txs[i].outputs| {
          var i :| 0 <= i < |txs| && u.txHash == txs[i].hash && 0 <= u.index < |txs[i].outputs|;
          if i == |pre| {
            assert u == UTXO(t.hash, u.index);
          }
        }
      }
    }
  }

  /** When equal hashes mean equal transactions, each output position maps to that output. */
  lemma {:induction false} BatchOutputsValues(txs: seq<Tx>)
    requires HashesIdentify(txs)
    ensures forall i, k | 0 <= i < |txs| && 0 <= k < |txs[i].outputs| ::
      UTXO(txs[i].hash, k) in BatchOutputs(txs) && BatchOutputs(txs)[UTXO(txs[i].hash, k)] == txs[i].outputs[k]
  {
    if txs != [] {
      var pre, t := txs[..|txs| - 1], txs[|txs| - 1];
      assert forall x | x in pre :: x in txs;
      BatchOutputsValues(pre);
      forall i, k | 0 <= i < |txs| && 0 <= k < |txs[i].outputs|
        ensures UTXO(txs[i].hash, k) in BatchOutputs(txs) && BatchOutputs(txs)[UTXO(txs[i].hash, k)] == txs[i].outputs[k]
      {
        if txs[i].hash == t.hash && k < |t.outputs| {
          assert txs[i] == t;
        } else {
          assert txs[i] == pre[i];
        }
      }
    }
  }
}
