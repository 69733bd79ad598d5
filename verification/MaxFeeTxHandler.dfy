/**
 * The fee-maximising batch handler. It overlays the confirmed pool with the
 * outputs of the whole batch, keeps the candidates valid against that overlay,
 * links each candidate to the candidates whose outputs it spends, scores and
 * greedily claims disjoint dependency trees, and finally commits the claimed
 * candidates in post-order, re-checking each against the live pool.
 */
module MaxFee {
  import opened Ledger
  import opened FeeGraph
  import opened FeeTrees

  // ---------------------------------------------------------------------------
  // Specification of the batch preparation
  // ---------------------------------------------------------------------------

  /** The output positions of transaction `h` that `ins` claim, in input order. */
  function LinkIndexes(h: Hash, ins: seq<Input>): seq<int>
  {
    if ins == [] then []
    else
      var last := ins[|ins| - 1];
      LinkIndexes(h, ins[..|ins| - 1]) + (if last.prevTxHash == h then [last.outputIndex] else [])
  }

  /** `t` claims some output of the transaction with hash `h`. */
  predicate SpendsFrom(t: Tx, h: Hash)
  {
    exists k | 0 <= k < |t.inputs| :: t.inputs[k].prevTxHash == h
  }

  /** The linked positions are exactly the output positions of `h` that some input claims. */
  lemma {:induction false} LinkIndexesMembers(h: Hash, ins: seq<Input>)
    ensures forall x :: x in LinkIndexes(h, ins) <==>
      exists k | 0 <= k < |ins| :: ins[k].prevTxHash == h && ins[k].outputIndex == x
    ensures LinkIndexes(h, ins) != [] <==> exists k | 0 <= k < |ins| :: ins[k].prevTxHash == h
  {
    if ins != [] {
      var pre := ins[..|ins| - 1];
      LinkIndexesMembers(h, pre);
      assert forall k | 0 <= k < |pre| :: pre[k] == ins[k];
    }
  }

  /** The candidates valid against `pool`, in their original order. */
  function Good(verify: SigOracle, pool: Pool, txs: seq<Tx>): seq<Tx>
  {
    if txs == [] then []
    else
      var t := txs[|txs| - 1];
      Good(verify, pool, txs[..|txs| - 1]) + (if ValidTx(verify, pool, t) then [t] else [])
  }

  /** The good candidates are a subsequence of the candidates, and exactly the valid ones. */
  lemma {:induction false} GoodCorrect(verify: SigOracle, pool: Pool, txs: seq<Tx>)
    ensures SubseqOf(Good(verify, pool, txs), txs)
    ensures forall t :: t in Good(verify, pool, txs) <==> t in txs && ValidTx(verify, pool, t)
  {
    if txs != [] {
      var pre, t := txs[..|txs| - 1], txs[|txs| - 1];
      GoodCorrect(verify, pool, pre);
      assert txs == pre + [t];
      if ValidTx(verify, pool, t) {
        SnocInit(Good(verify, pool, pre), t);
      } else {
        assert Good(verify, pool, txs) == Good(verify, pool, pre);
      }
    }
  }

  /** The outputs claimed by `ins` that are confirmed in `pool`. */
  function ConfirmedClaims(pool: Pool, ins: seq<Input>): set<UTXO>
  {
    if ins == [] then {}
    else
      var u := Claim(ins[|ins| - 1]);
      ConfirmedClaims(pool, ins[..|ins| - 1]) + (if u in pool then {u} else {})
  }

  lemma {:induction false} ConfirmedClaimsMembers(pool: Pool, ins: seq<Input>)
    ensures forall u :: u in ConfirmedClaims(pool, ins) <==>
      u in pool && exists k | 0 <= k < |ins| :: Claim(ins[k]) == u
  {
    if ins != [] {
      var pre := ins[..|ins| - 1];
      ConfirmedClaimsMembers(pool, pre);
      assert forall k | 0 <= k < |pre| :: pre[k] == ins[k];
    }
  }

  // ---------------------------------------------------------------------------
  // Specification of the dependency graph
  // ---------------------------------------------------------------------------

  lemma LinkedIffSpends(t: Tx, h: Hash)
    ensures LinkIndexes(h, t.inputs) != [] <==> SpendsFrom(t, h)
  {
    LinkIndexesMembers(h, t.inputs);
  }

  /** The indexes `j < m` of the good candidates that `t` spends from, ascending. */
  function Producers(good: seq<Tx>, t: Tx, m: nat): seq<nat>
    requires m <= |good|
  {
    if m == 0 then []
    else Producers(good, t, m - 1) + (if LinkIndexes(good[m - 1].hash, t.inputs) != [] then [m - 1] else [])
  }

  lemma {:induction false} ProducersMembers(good: seq<Tx>, t: Tx, m: nat)
    requires m <= |good|
    ensures forall j :: j in Producers(good, t, m) <==> 0 <= j < m && SpendsFrom(t, good[j].hash)
  {
    if m > 0 {
      var pre := Producers(good, t, m - 1);
      var last: seq<nat> := if LinkIndexes(good[m - 1].hash, t.inputs) != [] then [m - 1] else [];
      assert Producers(good, t, m) == pre + last;
      ProducersMembers(good, t, m - 1);
      LinkedIffSpends(t, good[m - 1].hash);
      forall j
        ensures j in pre + last <==> 0 <= j < m && SpendsFrom(t, good[j].hash)
      {
        assert j in pre + last <==> j in pre || j in last;
      }
    }
  }

  /** Row `i` lists the good candidates that candidate `i` spends from. */
  function DependencyLists(good: seq<Tx>): seq<seq<nat>>
  {
    seq(|good|, i requires 0 <= i < |good| => Producers(good, good[i], |good|))
  }

  /** The labelled edge `(i, j)` exists when `good[i]` spends from `good[j]`, labelled with the positions it claims. */
  ghost predicate LabelsFor(good: seq<Tx>, labels: map<(nat, nat), set<int>>, i: nat, j: nat)
    requires i < |good| && j < |good|
  {
    LinkIndexes(good[j].hash, good[i].inputs) != [] ==>
      (i, j) in labels && labels[(i, j)] == set x | x in LinkIndexes(good[j].hash, good[i].inputs)
  }

  /** Pair `(i, j)` is handled before pair `(row, col)` in row-major order. */
  predicate Before(i: nat, j: nat, row: nat, col: nat)
  {
    i < row || (i == row && j < col)
  }

  /** The edges of every pair before `(row, col)` are in place, and no others. */
  ghost predicate EdgesBuilt(good: seq<Tx>, adj: seq<seq<nat>>, labels: map<(nat, nat), set<int>>, row: nat, col: nat)
  {
    && |adj| == |good| && row <= |good| && col <= |good|
    && (forall i | 0 <= i < row :: adj[i] == Producers(good, good[i], |good|))
    && (row < |good| ==> adj[row] == Producers(good, good[row], col))
    && (forall i | row < i < |good| :: adj[i] == [])
    && (forall i, j | 0 <= i < |good| && 0 <= j < |good| && Before(i, j, row, col) :: LabelsFor(good, labels, i, j))
    && (forall e | e in labels :: Before(e.0, e.1, row, col))
  }

  /** Handling pair `(row, col)` without a link adds no edge. */
  lemma EdgeSkip(good: seq<Tx>, adj: seq<seq<nat>>, labels: map<(nat, nat), set<int>>, row: nat, col: nat)
    requires EdgesBuilt(good, adj, labels, row, col) && row < |good| && col < |good|
    requires LinkIndexes(good[col].hash, good[row].inputs) == []
    ensures EdgesBuilt(good, adj, labels, row, col + 1)
  {
  }

  /** Handling pair `(row, col)` with a link adds the edge, labelled with the linked positions. */
  lemma EdgeAdd(good: seq<Tx>, adj: seq<seq<nat>>, labels: map<(nat, nat), set<int>>, row: nat, col: nat)
    requires EdgesBuilt(good, adj, labels, row, col) && row < |good| && col < |good|
    requires LinkIndexes(good[col].hash, good[row].inputs) != []
    ensures var e := LinkIndexes(good[col].hash, good[row].inputs);
      EdgesBuilt(good, adj[row := adj[row] + [col]],
        labels[(row, col) := LabelsOf(labels, row, col) + set x | x in e], row, col + 1)
  {
    var e := LinkIndexes(good[col].hash, good[row].inputs);
    assert LabelsOf(labels, row, col) + (set x | x in e) == set x | x in e;
    var labels' := labels[(row, col) := set x | x in e];
    forall i, j | 0 <= i < |good| && 0 <= j < |good| && Before(i, j, row, col + 1)
      ensures LabelsFor(good, labels', i, j)
    {
      if (i, j) != (row, col) {
        assert LabelsFor(good, labels, i, j);
      }
    }
  }

  /** A finished row starts the next one. */
  lemma EdgeRow(good: seq<Tx>, adj: seq<seq<nat>>, labels: map<(nat, nat), set<int>>, row: nat)
    requires EdgesBuilt(good, adj, labels, row, |good|) && row < |good|
    ensures EdgesBuilt(good, adj, labels, row + 1, 0)
  {
  }

  /** With every row finished, the graph is the dependency of the good candidates. */
  lemma EdgesDone(good: seq<Tx>, adj: seq<seq<nat>>, labels: map<(nat, nat), set<int>>)
    requires EdgesBuilt(good, adj, labels, |good|, 0)
    ensures adj == DependencyLists(good)
    ensures forall i, j | 0 <= i < |good| && 0 <= j < |good| :: LabelsFor(good, labels, i, j)
  {
  }

  /**
   * The candidate dependency is ranked by `depth`: every candidate's hash has a
   * depth, and a candidate lies deeper than every candidate it spends from.
   * Content-derived hashes make the spend relation acyclic, so such a ranking exists.
   */
  ghost predicate Ranked(txs: seq<Tx>, depth: map<Hash, nat>)
  {
    && (forall t | t in txs :: t.hash in depth)
    && (forall t, p {:trigger SpendsFrom(t, p.hash)} | t in txs && p in txs && SpendsFrom(t, p.hash) :: depth[p.hash] < depth[t.hash])
  }

  /**
   * `d` is the dependency graph of the good candidates: an edge from each
   * candidate to every candidate it spends from, labelled with the output
   * indexes it claims; the claims it makes on `confirmed` outputs; its fee
   * against `overlay`; and whether it is valid against `confirmed` alone.
   */
  ghost predicate BatchGraph(verify: SigOracle, confirmed: Pool, overlay: Pool, good: seq<Tx>, d: Dag)
  {
    && WellFormed(d) && d.adj == DependencyLists(good) && |d.adj| == |good|
    && (forall i, j | 0 <= i < |good| && 0 <= j < |good| :: LabelsFor(good, d.labels, i, j))
    && (forall k | 0 <= k < |good| :: d.usedInputs[k] == ConfirmedClaims(confirmed, good[k].inputs))
    && (forall k | 0 <= k < |good| :: InputsPresent(overlay, good[k]) && d.value[k] == Fee(overlay, good[k]))
    && (forall k | 0 <= k < |good| :: d.isLeaf[k] == ValidTx(verify, confirmed, good[k]))
  }

  /**
   * `best` lists, each once and producers first, exactly the nodes that the
   * greedy selection marks used over `d`, the dependency graph of `good`: it
   * is the list of the selector's run, tree by tree in the order the roots
   * were taken.
   */
  ghost predicate Chosen(verify: SigOracle, confirmed: Pool, overlay: Pool, good: seq<Tx>, best: seq<nat>, d: Dag)
  {
    && BatchGraph(verify, confirmed, overlay, good, d)
    && Listed(d, Selection(d).state.used, best)
    && best == SelectionRun(d).result
  }

  /** A transaction whose inputs are all confirmed depends only on producers with a confirmed hash. */
  lemma ConfirmedProducers(confirmed: Pool, good: seq<Tx>, t: Tx)
    requires InputsPresent(confirmed, t)
    ensures forall j | j in Producers(good, t, |good|) :: j < |good| && good[j].hash in HashesOf(confirmed)
  {
    ProducersMembers(good, t, |good|);
    forall j | j in Producers(good, t, |good|)
      ensures j < |good| && good[j].hash in HashesOf(confirmed)
    {
      var k :| 0 <= k < |t.inputs| && t.inputs[k].prevTxHash == good[j].hash;
      assert Claim(t.inputs[k]) in confirmed;
    }
  }

  /** A leaf spends confirmed outputs only, so every producer it has an edge to has a confirmed hash. */
  lemma LeafProducers(verify: SigOracle, confirmed: Pool, overlay: Pool, good: seq<Tx>, d: Dag, x: nat)
    requires BatchGraph(verify, confirmed, overlay, good, d) && x < |good| && d.isLeaf[x]
    ensures forall i | 0 <= i < |d.adj[x]| :: d.adj[x][i] < |good| && good[d.adj[x][i]].hash in HashesOf(confirmed)
  {
    ConfirmedProducers(confirmed, good, good[x]);
  }

  /**
   * In the graph of a fresh batch no leaf has an edge: a leaf spends confirmed
   * outputs only, and no candidate's hash names a confirmed output.
   */
  lemma FreshLeavesAlone(verify: SigOracle, confirmed: Pool, overlay: Pool, good: seq<Tx>, d: Dag)
    requires BatchGraph(verify, confirmed, overlay, good, d) && FreshBatch(confirmed, good)
    ensures NoLeafEdges(d)
  {
    forall x | 0 <= x < |d.adj| && d.isLeaf[x]
      ensures d.adj[x] == []
    {
      LeafProducers(verify, confirmed, overlay, good, d, x);
      HeadMember(d.adj[x]);
    }
  }

  /**
   * Over a fresh batch the selection never claims two edges that spend the
   * same output of a producer, and the output positions it records as claimed
   * are exactly those the edges leaving the claimed nodes spend.
   */
  lemma SelectionClaimsOnce(verify: SigOracle, confirmed: Pool, overlay: Pool, good: seq<Tx>, d: Dag)
    requires BatchGraph(verify, confirmed, overlay, good, d) && FreshBatch(confirmed, good)
    ensures ClaimsSound(d, Selection(d).state)
  {
    FreshLeavesAlone(verify, confirmed, overlay, good, d);
    SelectionSound(d);
  }

  /** Every candidate of `good` claims only outputs of `pool` and pays no fee. */
  predicate ZeroFees(pool: Pool, good: seq<Tx>)
  {
    forall k | 0 <= k < |good| :: InputsPresent(pool, good[k]) && Fee(pool, good[k]) == 0
  }

  /** The good candidates at the claimed nodes, in claim order. */
  function Select(good: seq<Tx>, nodes: seq<nat>): (r: seq<Tx>)
    requires forall k | 0 <= k < |nodes| :: nodes[k] < |good|
    ensures |r| == |nodes| && forall k | 0 <= k < |nodes| :: r[k] == good[nodes[k]]
  {
    seq(|nodes|, k requires 0 <= k < |nodes| => good[nodes[k]])
  }

  /** The candidates at the claimed nodes are drawn from wherever the good list is drawn from. */
  lemma SelectFrom(good: seq<Tx>, nodes: seq<nat>, txs: seq<Tx>)
    requires forall k | 0 <= k < |good| :: good[k] in txs
    requires forall k | 0 <= k < |nodes| :: nodes[k] < |good|
    ensures forall i | 0 <= i < |Select(good, nodes)| :: Select(good, nodes)[i] in txs
  {
  }

  /**
   * A commit pass over candidates drawn from a batch forms a valid sequence
   * whose effect is the pass's pool, taken in order from the candidates; over
   * a fresh batch no two commits claim the same output.
   */
  lemma CommitOutcome(verify: SigOracle, pool: Pool, txs: seq<Tx>, sub: seq<Tx>)
    requires forall i | 0 <= i < |sub| :: sub[i] in txs
    ensures ValidSequence(verify, pool, CommitPass(verify, pool, sub).1)
    ensures CommitPass(verify, pool, sub).0 == PoolAfter(pool, CommitPass(verify, pool, sub).1)
    ensures SubseqOf(CommitPass(verify, pool, sub).1, sub)
    ensures FreshBatch(pool, txs) ==> DisjointSpends(CommitPass(verify, pool, sub).1)
  {
    CommitPassSound(verify, pool, sub);
    if FreshBatch(pool, txs) {
      FreshBatchSub(pool, txs, sub);
      CommitPassNoDoubleSpend(verify, pool, sub);
    }
  }

  /** Candidates drawn from a ranked batch are ranked the same way. */
  lemma RankedMembers(txs: seq<Tx>, depth: map<Hash, nat>, good: seq<Tx>)
    requires Ranked(txs, depth)
    requires forall k | 0 <= k < |good| :: good[k] in txs
    ensures Ranked(good, depth)
  {
  }

  /** A ranked list, by position: each candidate lies deeper than every candidate it spends from. */
  lemma RankedIndexes(good: seq<Tx>, depth: map<Hash, nat>)
    requires Ranked(good, depth)
    ensures forall k | 0 <= k < |good| :: good[k].hash in depth
    ensures forall i, j | 0 <= i < |good| && 0 <= j < |good| && SpendsFrom(good[i], good[j].hash) ::
      depth[good[j].hash] < depth[good[i].hash]
  {
  }

  /** The output positions of `a` that the inputs of `b` claim, in input order; empty when `b` spends nothing of `a`. */
  method Linked(a: Tx, b: Tx) returns (res: seq<int>)
    ensures res == LinkIndexes(a.hash, b.inputs)
  {
    res := [];
    var i := 0;
    while i < |b.inputs|
      invariant 0 <= i <= |b.inputs|
      invariant res == LinkIndexes(a.hash, b.inputs[..i])
    {
      SnocInit(b.inputs[..i], b.inputs[i]);
      assert b.inputs[..i + 1] == b.inputs[..i] + [b.inputs[i]];
      if b.inputs[i].prevTxHash == a.hash {
        res := res + [b.inputs[i].outputIndex];
      }
      i := i + 1;
    }
    assert b.inputs[..i] == b.inputs;
  }

  class MaxFeeTxHandler {
    var unspentPool: Pool
    var tempPool: Pool
    const verify: SigOracle

    /** The handler works on its own copy of the given pool and starts with an empty batch pool. */
    constructor (utxoPool: Pool, verify: SigOracle)
      ensures unspentPool == utxoPool && tempPool == map[]
      ensures this.verify == verify
    {
      unspentPool := utxoPool;
      tempPool := map[];
      this.verify := verify;
    }

    /** The pool the overlay check reads: a confirmed output wins over a batch output. */
    function Overlay(): Pool
      reads this
    {
      tempPool + unspentPool
    }

    /**
     * The five-condition oracle. With `disableUnspentCheck` an input may claim
     * a batch output as well as a confirmed one, the confirmed one read first.
     */
    method IsValidTxWith(tx: Tx, disableUnspentCheck: bool) returns (ok: bool)
      ensures ok == ValidTx(verify, if disableUnspentCheck then Overlay() else unspentPool, tx)
      ensures !disableUnspentCheck && ok ==> ValidTx(verify, Overlay(), tx)
      ensures ok ==> Fee(if disableUnspentCheck then Overlay() else unspentPool, tx) >= 0
    {
      ok := CheckTx(verify, if disableUnspentCheck then tempPool + unspentPool else unspentPool, tx);
      if ok {
        ValidTxFeeNonNegative(verify, if disableUnspentCheck then Overlay() else unspentPool, tx);
        if !disableUnspentCheck {
          ValidWithoutOverlayIsValidWithOverlay(verify, unspentPool, tempPool, tx);
        }
      }
    }

    /** The one-argument overload: the oracle against the confirmed pool alone. */
    method IsValidTx(tx: Tx) returns (ok: bool)
      ensures ok == ValidTx(verify, unspentPool, tx)
    {
      ok := IsValidTxWith(tx, false);
    }

    /** Claimed value minus produced value, each claim read from the confirmed pool first, then the batch pool. */
    method GetFee(tx: Tx) returns (fee: int)
      requires InputsPresent(Overlay(), tx)
      ensures fee == Fee(Overlay(), tx)
    {
      var balance := 0;
      var i := 0;
      while i < |tx.inputs|
        invariant 0 <= i <= |tx.inputs|
        invariant balance == InputSum(Overlay(), tx.inputs[..i])
      {
        var utxo := Claim(tx.inputs[i]);
        var previous := if utxo in unspentPool then unspentPool[utxo] else tempPool[utxo];
        assert previous == Overlay()[utxo];
        assert tx.inputs[..i + 1][..i] == tx.inputs[..i];
        balance := balance + previous.value;
        i := i + 1;
      }
      assert tx.inputs[..i] == tx.inputs;
      var j := 0;
      while j < |tx.outputs|
        invariant 0 <= j <= |tx.outputs|
        invariant balance == InputSum(Overlay(), tx.inputs) - OutputSum(tx.outputs[..j])
      {
        assert tx.outputs[..j + 1][..j] == tx.outputs[..j];
        balance := balance - tx.outputs[j].value;
        j := j + 1;
      }
      assert tx.outputs[..j] == tx.outputs;
      fee := balance;
    }

    /** Records, for every good candidate, the confirmed outputs it claims. */
    method AddConfirmedInputs(g: Graph, good: seq<Tx>)
      requires g.Valid() && g.n == |good|
      requires forall k | 0 <= k < |good| :: g.usedInputs[k] == {}
      modifies g`usedInputs
      ensures g.Valid()
      ensures forall k | 0 <= k < |good| :: g.usedInputs[k] == ConfirmedClaims(unspentPool, good[k].inputs)
    {
      var id := 0;
      while id < |good|
        invariant 0 <= id <= |good| && g.Valid()
        invariant forall k | 0 <= k < id :: g.usedInputs[k] == ConfirmedClaims(unspentPool, good[k].inputs)
        invariant forall k | id <= k < |good| :: g.usedInputs[k] == {}
      {
        var tx := good[id];
        ghost var row := g.usedInputs;
        var i := 0;
        while i < |tx.inputs|
          invariant 0 <= i <= |tx.inputs| && g.Valid()
          invariant g.usedInputs[id] == ConfirmedClaims(unspentPool, tx.inputs[..i])
          invariant forall k | 0 <= k < |good| && k != id :: g.usedInputs[k] == row[k]
        {
          SnocInit(tx.inputs[..i], tx.inputs[i]);
          assert tx.inputs[..i + 1] == tx.inputs[..i] + [tx.inputs[i]];
          var utxo := Claim(tx.inputs[i]);
          if utxo in unspentPool {
            g.AddUsedInput(id, utxo);
          }
          i := i + 1;
        }
        assert tx.inputs[..i] == tx.inputs;
        id := id + 1;
      }
    }

    /** Adds the edge `i -> j`, labelled with the linked positions, for every good `i` that spends from good `j`. */
    method AddDependencyEdges(g: Graph, good: seq<Tx>)
      requires g.Valid() && g.n == |good|
      requires forall i | 0 <= i < |good| :: g.adj[i] == []
      requires g.edgeIndexes == map[]
      requires forall i, j | 0 <= i < |good| && 0 <= j < |good| && SpendsFrom(good[i], good[j].hash) :: g.rank[j] < g.rank[i]
      modifies g`adj, g`edgeIndexes
      ensures g.Valid()
      ensures g.adj == DependencyLists(good)
      ensures forall i, j | 0 <= i < |good| && 0 <= j < |good| :: LabelsFor(good, g.edgeIndexes, i, j)
    {
      var i := 0;
      while i < |good|
        invariant 0 <= i <= |good| && g.Valid()
        invariant EdgesBuilt(good, g.adj, g.edgeIndexes, i, 0)
      {
        AddRowEdges(g, good, i);
        i := i + 1;
      }
      EdgesDone(good, g.adj, g.edgeIndexes);
    }

    /** Handles row `i`: the edges from candidate `i` to every candidate it spends from. */
    method AddRowEdges(g: Graph, good: seq<Tx>, i: nat)
      requires g.Valid() && g.n == |good| && i < |good|
      requires EdgesBuilt(good, g.adj, g.edgeIndexes, i, 0)
      requires forall i, j | 0 <= i < |good| && 0 <= j < |good| && SpendsFrom(good[i], good[j].hash) :: g.rank[j] < g.rank[i]
      modifies g`adj, g`edgeIndexes
      ensures g.Valid()
      ensures EdgesBuilt(good, g.adj, g.edgeIndexes, i + 1, 0)
    {
      var j := 0;
      while j < |good|
        invariant 0 <= j <= |good| && g.Valid()
        invariant EdgesBuilt(good, g.adj, g.edgeIndexes, i, j)
      {
        AddEdgeIfLinked(g, good, i, j);
        j := j + 1;
      }
      EdgeRow(good, g.adj, g.edgeIndexes, i);
    }

    /** Handles pair `(i, j)`: adds the edge `i -> j` when candidate `i` spends from candidate `j`. */
    method AddEdgeIfLinked(g: Graph, good: seq<Tx>, i: nat, j: nat)
      requires g.Valid() && g.n == |good| && i < |good| && j < |good|
      requires EdgesBuilt(good, g.adj, g.edgeIndexes, i, j)
      requires forall i, j | 0 <= i < |good| && 0 <= j < |good| && SpendsFrom(good[i], good[j].hash) :: g.rank[j] < g.rank[i]
      modifies g`adj, g`edgeIndexes
      ensures g.Valid()
      ensures EdgesBuilt(good, g.adj, g.edgeIndexes, i, j + 1)
    {
      var e := Linked(good[j], good[i]);
      if |e| > 0 {
        EdgeAdd(good, g.adj, g.edgeIndexes, i, j);
        LinkIndexesMembers(good[j].hash, good[i].inputs);
        g.AddEdge(i, j, e);
      } else {
        EdgeSkip(good, g.adj, g.edgeIndexes, i, j);
      }
    }

    /** Gives every good candidate its fee, and marks as leaves those valid against the confirmed pool alone. */
    method SetFeesAndLeaves(g: Graph, good: seq<Tx>)
      requires g.Valid() && g.n == |good|
      requires forall k | 0 <= k < |good| :: ValidTx(verify, Overlay(), good[k]) && !g.isLeaf[k]
      modifies g`value, g`isLeaf
      ensures g.Valid()
      ensures forall k | 0 <= k < |good| :: InputsPresent(Overlay(), good[k]) && g.value[k] == Fee(Overlay(), good[k])
      ensures forall k | 0 <= k < |good| :: g.isLeaf[k] == ValidTx(verify, unspentPool, good[k])
    {
      var i := 0;
      while i < |good|
        invariant 0 <= i <= |good| && g.Valid()
        invariant forall k | 0 <= k < i :: g.value[k] == Fee(Overlay(), good[k])
        invariant forall k | 0 <= k < i :: g.isLeaf[k] == ValidTx(verify, unspentPool, good[k])
        invariant forall k | i <= k < |good| :: !g.isLeaf[k]
      {
        var fee := GetFee(good[i]);
        ValidTxFeeNonNegative(verify, Overlay(), good[i]);
        g.SetValue(i, fee);
        var ok := IsValidTx(good[i]);
        if ok {
          g.SetLeaf(i);
        }
        i := i + 1;
      }
    }

    /** Refills the batch pool with every candidate's outputs and keeps the candidates valid against the overlay. */
    method PrepareBatch(possibleTxs: seq<Tx>) returns (goodTransactions: seq<Tx>)
      modifies this`tempPool
      ensures tempPool == BatchOutputs(possibleTxs)
      ensures goodTransactions == Good(verify, Overlay(), possibleTxs)
      ensures forall k | 0 <= k < |goodTransactions| ::
        goodTransactions[k] in possibleTxs && ValidTx(verify, Overlay(), goodTransactions[k])
    {
      tempPool := map[];
      var id := 0;
      while id < |possibleTxs|
        invariant 0 <= id <= |possibleTxs|
        invariant tempPool == BatchOutputs(possibleTxs[..id])
      {
        assert possibleTxs[..id + 1][..id] == possibleTxs[..id];
        tempPool := AddOutputs(tempPool, possibleTxs[id]);
        id := id + 1;
      }
      assert possibleTxs[..id] == possibleTxs;
      goodTransactions := [];
      var i := 0;
      while i < |possibleTxs|
        invariant 0 <= i <= |possibleTxs|
        invariant tempPool == BatchOutputs(possibleTxs)
        invariant goodTransactions == Good(verify, Overlay(), possibleTxs[..i])
      {
        assert possibleTxs[..i + 1][..i] == possibleTxs[..i];
        var ok := IsValidTxWith(possibleTxs[i], true);
        if ok {
          goodTransactions := goodTransactions + [possibleTxs[i]];
        }
        i := i + 1;
      }
      assert possibleTxs[..i] == possibleTxs;
      GoodCorrect(verify, Overlay(), possibleTxs);
      SubseqMembers(goodTransactions, possibleTxs);
    }

    /** Builds the dependency graph of the good candidates, ranked by the depth of their hashes. */
    method BuildGraph(good: seq<Tx>, ghost depth: map<Hash, nat>) returns (g: Graph)
      requires forall k | 0 <= k < |good| :: ValidTx(verify, Overlay(), good[k])
      requires Ranked(good, depth)
      ensures fresh(g) && g.Valid() && g.n == |good|
      ensures forall k | 0 <= k < |good| :: !g.used[k]
      ensures BatchGraph(verify, unspentPool, Overlay(), good, g.Shape())
    {
      RankedIndexes(good, depth);
      g := new Graph(|good|, seq(|good|, k requires 0 <= k < |good| => depth[good[k].hash]));
      AddConfirmedInputs(g, good);
      AddDependencyEdges(g, good);
      SetFeesAndLeaves(g, good);
    }

    /**
     * Commits, in claim order, every claimed candidate still valid against the
     * live pool. The commits form a valid sequence whose effect is the new
     * pool, drawn in order from the claimed candidates; nothing claimed,
     * nothing committed; and when the candidates come from a fresh batch, no
     * two commits claim the same output.
     */
    method CommitSelection(good: seq<Tx>, best: seq<nat>, ghost batch: seq<Tx>) returns (result: seq<Tx>)
      requires forall k | 0 <= k < |best| :: best[k] < |good|
      requires forall k | 0 <= k < |good| :: good[k] in batch
      modifies this`unspentPool
      ensures tempPool == old(tempPool)
      ensures (unspentPool, result) == CommitPass(verify, old(unspentPool), Select(good, best))
      ensures ValidSequence(verify, old(unspentPool), result) && unspentPool == PoolAfter(old(unspentPool), result)
      ensures SubseqOf(result, Select(good, best))
      ensures best == [] ==> result == []
      ensures FreshBatch(old(unspentPool), batch) ==> DisjointSpends(result)
    {
      ghost var selection := Select(good, best);
      result := [];
      var id := 0;
      while id < |best|
        invariant 0 <= id <= |best|
        invariant (unspentPool, result) == CommitPass(verify, old(unspentPool), selection[..id])
      {
        assert selection[..id + 1][..id] == selection[..id];
        var tx := good[best[id]];
        var ok := IsValidTx(tx);
        if ok {
          result := result + [tx];
          unspentPool := ApplyTx(unspentPool, tx);
        }
        id := id + 1;
      }
      assert selection[..id] == selection;
      SelectFrom(good, best, batch);
      CommitOutcome(verify, old(unspentPool), batch, selection);
    }

    /**
     * Builds the dependency graph `d` of the good candidates and claims disjoint
     * trees by descending value. The claimed nodes are exactly those the greedy
     * selection over `d` marks used, each once, every one after the producers it
     * spends from; a list of only zero-fee candidates claims nothing.
     */
    method SelectNodes(good: seq<Tx>, ghost depth: map<Hash, nat>) returns (best: seq<nat>, ghost d: Dag)
      requires forall k | 0 <= k < |good| :: ValidTx(verify, Overlay(), good[k])
      requires Ranked(good, depth)
      ensures Chosen(verify, unspentPool, Overlay(), good, best, d)
      ensures ZeroFees(Overlay(), good) ==> best == []
    {
      var g := BuildGraph(good, depth);
      d := g.Shape();
      best := g.GetMaxDisjointTrees();
      if ZeroFees(Overlay(), good) {
        ZeroFeesNoValue(d);
      }
    }

    /**
     * The selection half of the handler: overlays the batch outputs, keeps the
     * candidates valid against the overlay, and selects among them.
     */
    method ChooseNodes(possibleTxs: seq<Tx>, ghost depth: map<Hash, nat>)
      returns (good: seq<Tx>, best: seq<nat>, ghost d: Dag)
      requires Ranked(possibleTxs, depth)
      modifies this`tempPool
      ensures tempPool == BatchOutputs(possibleTxs)
      ensures good == Good(verify, tempPool + old(unspentPool), possibleTxs)
      ensures forall k | 0 <= k < |good| :: good[k] in possibleTxs && ValidTx(verify, tempPool + old(unspentPool), good[k])
      ensures Chosen(verify, old(unspentPool), tempPool + old(unspentPool), good, best, d)
      ensures forall k | 0 <= k < |best| :: best[k] < |good|
      ensures ZeroFees(tempPool + old(unspentPool), good) ==> best == []
    {
      good := PrepareBatch(possibleTxs);
      RankedMembers(possibleTxs, depth, good);
      best, d := SelectNodes(good, depth);
    }

    /**
     * Handles a batch: chooses the claimed nodes, then commits the claimed
     * candidates in post-order, each only if still valid against the live pool.
     * `depth` is a ranking of the candidates' spend relation, which
     * content-derived hashes make acyclic.
     *
     * The commits form a valid sequence whose effect is the new pool, drawn in
     * order from the claimed candidates; a batch of only zero-fee candidates
     * commits nothing; and over a fresh batch no two commits claim the same
     * output.
     */
    method HandleTxs(possibleTxs: seq<Tx>, ghost depth: map<Hash, nat>)
      returns (result: seq<Tx>, ghost good: seq<Tx>, ghost best: seq<nat>, ghost d: Dag)
      requires Ranked(possibleTxs, depth)
      modifies this`tempPool, this`unspentPool
      ensures tempPool == BatchOutputs(possibleTxs)
      ensures good == Good(verify, tempPool + old(unspentPool), possibleTxs)
      ensures forall k | 0 <= k < |good| :: good[k] in possibleTxs && ValidTx(verify, tempPool + old(unspentPool), good[k])
      ensures Chosen(verify, old(unspentPool), tempPool + old(unspentPool), good, best, d)
      ensures forall k | 0 <= k < |best| :: best[k] < |good|
      ensures (unspentPool, result) == CommitPass(verify, old(unspentPool), Select(good, best))
      ensures ValidSequence(verify, old(unspentPool), result) && unspentPool == PoolAfter(old(unspentPool), result)
      ensures SubseqOf(result, Select(good, best))
      ensures ZeroFees(tempPool + old(unspentPool), good) ==> result == []
      ensures FreshBatch(old(unspentPool), possibleTxs) ==> DisjointSpends(result)
    {
      var goodTransactions, bestNodes;
      goodTransactions, bestNodes, d := ChooseNodes(possibleTxs, depth);
      good, best := goodTransactions, bestNodes;
      result := CommitSelection(goodTransactions, bestNodes, possibleTxs);
    }
  }
}
