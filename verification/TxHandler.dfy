/**
 * The fixed-point batch handler: it sweeps the candidates again and again,
 * committing every candidate that validates against the current pool, until a
 * whole sweep commits nothing.
 */
module TxHandling {
  import opened Ledger

  function Elements(txs: seq<Tx>): set<Tx>
  {
    set t | t in txs
  }

  lemma {:induction false} SubsetCard<T>(a: set<T>, b: set<T>)
    requires a <= b
    ensures |a| <= |b|
    decreases a
  {
    if a != {} {
      var x :| x in a;
      SubsetCard(a - {x}, b - {x});
    }
  }

  /** A sequence has at least as many positions as distinct elements, and exactly as many when its hashes differ. */
  lemma {:induction false} ElementsCard(txs: seq<Tx>)
    ensures |Elements(txs)| <= |txs|
    ensures (forall i, j | 0 <= i < j < |txs| :: txs[i].hash != txs[j].hash) ==> |Elements(txs)| == |txs|
  {
    if txs != [] {
      var pre, t := txs[..|txs| - 1], txs[|txs| - 1];
      ElementsCard(pre);
      assert txs == pre + [t];
      assert Elements(txs) == Elements(pre) + {t};
    }
  }

  /** The committed candidates, having distinct hashes, are no more than the candidates. */
  lemma AcceptedBound(pool0: Pool, accepted: seq<Tx>, possibleTxs: seq<Tx>)
    requires FreshHashes(pool0, accepted)
    requires forall t | t in accepted :: t in possibleTxs
    ensures |accepted| <= |possibleTxs|
  {
    ElementsCard(accepted);
    ElementsCard(possibleTxs);
    SubsetCard(Elements(accepted), Elements(possibleTxs));
  }

  /**
   * Looking at one more candidate advances a sweep by exactly one step of
   * `CommitPass`: the candidate is committed when `ok`, its validity against
   * the sweep's current pool, holds, and skipped otherwise.
   */
  lemma SweepStep(verify: SigOracle, pool: Pool, txs: seq<Tx>, k: nat, ok: bool)
    requires k < |txs|
    requires ok == ValidTx(verify, CommitPass(verify, pool, txs[..k]).0, txs[k])
    ensures var r := CommitPass(verify, pool, txs[..k]);
      CommitPass(verify, pool, txs[..k + 1]) == if ok then (Apply(r.0, txs[k]), r.1 + [txs[k]]) else r
  {
    assert txs[..k + 1][..k] == txs[..k];
  }

  /**
   * A whole sweep over a fresh batch, after a valid, freshly hashed `accepted`
   * drawn from it, leaves the batch facts true of `accepted` followed by what
   * the sweep commits, and the sweep's pool is their effect.
   */
  lemma SweepExtends(verify: SigOracle, pool0: Pool, possibleTxs: seq<Tx>, accepted: seq<Tx>)
    requires FreshBatch(pool0, possibleTxs)
    requires ValidSequence(verify, pool0, accepted) && FreshHashes(pool0, accepted)
    requires forall t | t in accepted :: t in possibleTxs
    ensures var r := CommitPass(verify, PoolAfter(pool0, accepted), possibleTxs);
      && ValidSequence(verify, pool0, accepted + r.1) && FreshHashes(pool0, accepted + r.1)
      && r.0 == PoolAfter(pool0, accepted + r.1)
      && (forall t | t in accepted + r.1 :: t in possibleTxs)
      && |accepted + r.1| <= |possibleTxs|
  {
    var r := CommitPass(verify, PoolAfter(pool0, accepted), possibleTxs);
    assert forall i | 0 <= i < |accepted| :: accepted[i] in possibleTxs;
    CommitPassFreshAfter(verify, pool0, possibleTxs, accepted, possibleTxs);
    CommitPassSound(verify, PoolAfter(pool0, accepted), possibleTxs);
    SubseqMembers(r.1, possibleTxs);
    PoolAfterConcat(pool0, accepted, r.1);
    assert forall t | t in accepted + r.1 :: t in accepted || t in r.1;
    AcceptedBound(pool0, accepted + r.1, possibleTxs);
  }

  class TxHandler {
    var unspentPool: Pool
    const verify: SigOracle

    /** The handler works on its own copy of the given pool. */
    constructor (utxoPool: Pool, verify: SigOracle)
      ensures unspentPool == utxoPool
      ensures this.verify == verify
    {
      unspentPool := utxoPool;
      this.verify := verify;
    }

    /** The five-condition oracle against the handler's current pool. */
    method IsValidTx(tx: Tx) returns (ok: bool)
      ensures ok == ValidTx(verify, unspentPool, tx)
      ensures ok ==> InputsPresent(unspentPool, tx) && Fee(unspentPool, tx) >= 0
    {
      ok := CheckTx(verify, unspentPool, tx);
    }

    function GetUTXOPool(): Pool
      reads this
    {
      unspentPool
    }

    /**
     * Sweeps `possibleTxs` until a sweep commits nothing. Each committed
     * transaction was valid against the pool at its commit, the pool is their
     * successive effect, no two of them claim the same output, and no candidate
     * is valid against the final pool.
     *
     * The sweep terminates because every candidate spends an output and hashes
     * are content-derived (equal hashes mean equal transactions, and no candidate
     * re-creates an output already pooled): a committed candidate never becomes
     * valid again.
     */
    method HandleTxs(possibleTxs: seq<Tx>) returns (accepted: seq<Tx>)
      requires forall i | 0 <= i < |possibleTxs| :: |possibleTxs[i].inputs| > 0
      requires HashesIdentify(possibleTxs)
      requires forall i | 0 <= i < |possibleTxs| :: possibleTxs[i].hash !in HashesOf(unspentPool)
      modifies this
      ensures ValidSequence(verify, old(unspentPool), accepted)
      ensures unspentPool == PoolAfter(old(unspentPool), accepted)
      ensures FreshHashes(old(unspentPool), accepted)
      ensures forall t | t in accepted :: t in possibleTxs
      ensures forall i | 0 <= i < |possibleTxs| :: !ValidTx(verify, unspentPool, possibleTxs[i])
      ensures DisjointSpends(accepted)
    {
      ghost var pool0 := unspentPool;
      accepted := [];
      while true
        invariant ValidSequence(verify, pool0, accepted) && FreshHashes(pool0, accepted)
        invariant unspentPool == PoolAfter(pool0, accepted)
        invariant forall t | t in accepted :: t in possibleTxs
        invariant |accepted| <= |possibleTxs|
        decreases |possibleTxs| - |accepted|
      {
        var foundSomething := false;
        ghost var sweepPool := unspentPool;
        ghost var before := accepted;
        var k := 0;
        ghost var swept: seq<Tx> := [];
        assert possibleTxs[..k] == [] && accepted == before + swept;
        while k < |possibleTxs|
          invariant 0 <= k <= |possibleTxs|
          invariant (unspentPool, swept) == CommitPass(verify, sweepPool, possibleTxs[..k])
          invariant accepted == before + swept
          invariant foundSomething <==> swept != []
        {
          var tx := possibleTxs[k];
          var ok := IsValidTx(tx);
          SweepStep(verify, sweepPool, possibleTxs, k, ok);
          if ok {
            ConcatAssoc(before, swept, [tx]);
            accepted := accepted + [tx];
            swept := swept + [tx];
            foundSomething := true;
            unspentPool := ApplyTx(unspentPool, tx);
          }
          k := k + 1;
        }
        assert possibleTxs[..k] == possibleTxs;
        SweepExtends(verify, pool0, possibleTxs, before);
        if !foundSomething {
          CommitPassQuiescent(verify, sweepPool, possibleTxs);
          break;
        }
      }
      NoDoubleSpend(verify, pool0, accepted);
    }
  }
}
