/**
 * The dependency graph of the fee-maximising selector, as the object that
 * searches it. Node `i` stands for the i-th candidate that passed the overlay
 * check. An edge runs from a consumer to the producer whose outputs it
 * spends, labelled with the output positions it spends. Each node carries its
 * fee (`value`), its inputs that are already confirmed (`usedInputs`) and
 * whether it is valid against the confirmed pool alone (`isLeaf`).
 *
 * Hash links between real transactions cannot form a cycle (a hash is computed
 * from the inputs, which name earlier hashes). The ghost `rank` records that
 * order: every edge goes to a node of smaller rank, which is what makes the
 * depth-first searches terminate. `Shape()` is the graph as a `Dag`, and every
 * search is proved against the definitions of module `FeeTrees`.
 */
module FeeGraph {
  import opened Ledger
  import opened FeeTrees

  // ---------------------------------------------------------------------------
  // The tree search, step by step
  // ---------------------------------------------------------------------------

  /**
   * A tree search from `u` (not a leaf) that has entered `u`, searched below
   * its first `kv` successors and crossed its first `ke` edges, starting from
   * visited marks `v0`, confirmed outputs `t0` and label pairs `p0`: the marks
   * are `visited`, the confirmed outputs `temp` and the label pairs `pairs`,
   * each the start plus what the nodes entered and the edges crossed claim,
   * and nothing was claimed twice.
   */
  ghost predicate Scored(d: Dag, v0: seq<bool>, t0: set<UTXO>, p0: set<(nat, int)>, u: nat, kv: nat, ke: nat,
                         visited: seq<bool>, temp: set<UTXO>, pairs: set<(nat, int)>)
    requires WellFormed(d)
  {
    && Entered(d, v0, u, kv, ke, visited)
    && InputsClaimed(d, Newly(v0, visited), t0, temp)
    && EdgesClaimed(d, Occ(d, d.isLeaf, Newly(v0, visited) - {u}) + EdgesUpTo(u, ke), p0, pairs)
  }

  /** The marks of a search from `u` that has searched below the first `kv` successors of `u`. */
  ghost predicate Entered(d: Dag, v0: seq<bool>, u: nat, kv: nat, ke: nat, visited: seq<bool>)
    requires WellFormed(d)
  {
    && u < |d.adj| && kv <= ke <= |d.adj[u]| && !d.isLeaf[u] && |v0| == |d.adj| && !v0[u]
    && MarkedAs(visited, v0, {u} + ReachUpTo(d, d.isLeaf, u, kv))
    && ClosedBelow(d, d.isLeaf, visited, d.rank[u])
  }

  /** The confirmed outputs are `t0` plus those of the nodes `e`, each claimed once. */
  ghost predicate InputsClaimed(d: Dag, e: set<nat>, t0: set<UTXO>, temp: set<UTXO>)
  {
    temp == t0 + Union(InputClaims(d, e)) && FamilyFree(t0, InputClaims(d, e))
  }

  /** The label pairs are `p0` plus those the edges `o` spend, each claimed once. */
  ghost predicate EdgesClaimed(d: Dag, o: set<(nat, nat)>, p0: set<(nat, int)>, pairs: set<(nat, int)>)
  {
    pairs == p0 + Union(LabelClaims(d, o)) && FamilyFree(p0, LabelClaims(d, o))
  }

  /**
   * A completed search from `u`: it has visited the tree of `u`, added the
   * confirmed outputs of the nodes it newly visited and the label pairs of the
   * edges leaving them, and every node it newly visited that is not a leaf has
   * all its successors visited.
   */
  ghost predicate Searched(d: Dag, v0: seq<bool>, t0: set<UTXO>, p0: set<(nat, int)>, u: nat,
                           visited: seq<bool>, temp: set<UTXO>, pairs: set<(nat, int)>)
    requires WellFormed(d) && u < |d.adj|
  {
    && |v0| == |d.adj| && MarkedAs(visited, v0, Tree(d, u))
    && NewlyClosed(d, d.isLeaf, v0, visited)
    && var added := Tree(d, u) - Marked(v0);
       && temp == t0 + Union(InputClaims(d, added))
       && pairs == p0 + Union(LabelClaims(d, Occ(d, d.isLeaf, added)))
  }

  /** A search from nothing visited and nothing claimed answers the tree value. */
  lemma ScoreFromNothing(d: Dag, u: nat, visited: seq<bool>, temp: set<UTXO>, pairs: set<(nat, int)>, r: int)
    requires WellFormed(d) && u < |d.adj|
    requires r == -1 <==> !SearchFree(d, NoMarks(|d.adj|), {}, {}, u)
    requires r != -1 ==> Searched(d, NoMarks(|d.adj|), {}, {}, u, visited, temp, pairs)
    requires r != -1 ==> r == NewlyMarkedSum(d.value, NoMarks(|d.adj|), visited)
    ensures r == TreeValue(d, u)
  {
    SearchFreeAtStart(d, u);
    if r != -1 {
      assert visited == Mark(NoMarks(|d.adj|), Tree(d, u));
    }
  }

  /** A node whose confirmed outputs are already claimed makes the search fail. */
  lemma ScoreInputClash(d: Dag, v0: seq<bool>, t0: set<UTXO>, p0: set<(nat, int)>, u: nat)
    requires WellFormed(d) && u < |d.adj| && |v0| == |d.adj| && !v0[u]
    requires !(d.usedInputs[u] !! t0)
    ensures !SearchFree(d, v0, t0, p0, u)
  {
    assert u in Tree(d, u) - Marked(v0);
  }

  /** A leaf whose confirmed outputs are unclaimed completes the search by itself. */
  lemma ScoreLeaf(d: Dag, v0: seq<bool>, t0: set<UTXO>, p0: set<(nat, int)>, u: nat)
    requires WellFormed(d) && u < |d.adj| && d.isLeaf[u] && |v0| == |d.adj| && !v0[u]
    requires d.usedInputs[u] !! t0
    ensures SearchFree(d, v0, t0, p0, u)
    ensures Searched(d, v0, t0, p0, u, v0[u := true], t0 + d.usedInputs[u], p0)
  {
    assert Tree(d, u) - Marked(v0) == {u};
    assert InputClaims(d, {u}) == map[][u := d.usedInputs[u]];
    FamilyAdd(t0, map[], u, d.usedInputs[u]);
    assert Occ(d, d.isLeaf, {u}) == {};
    assert LabelClaims(d, {}) == map[];
  }

  /** Entering a node that is not a leaf, with its confirmed outputs unclaimed, starts the search. */
  lemma ScoreStart(d: Dag, v0: seq<bool>, t0: set<UTXO>, p0: set<(nat, int)>, u: nat)
    requires WellFormed(d) && u < |d.adj| && !d.isLeaf[u] && |v0| == |d.adj| && !v0[u]
    requires ClosedBelow(d, d.isLeaf, v0, d.rank[u]) && d.usedInputs[u] !! t0
    ensures Scored(d, v0, t0, p0, u, 0, 0, v0[u := true], t0 + d.usedInputs[u], p0)
  {
    var visited := v0[u := true];
    assert Newly(v0, visited) == {u};
    assert InputClaims(d, {u}) == map[][u := d.usedInputs[u]];
    FamilyAdd(t0, map[], u, d.usedInputs[u]);
    assert Occ(d, d.isLeaf, {u} - {u}) + EdgesUpTo(u, 0) == {};
    assert LabelClaims(d, {}) == map[];
  }

  /** The nodes a search has entered so far lie in the tree and include `u`; the edges it has crossed leave them. */
  lemma ScoredParts(d: Dag, v0: seq<bool>, u: nat, kv: nat, ke: nat, visited: seq<bool>, m: nat)
    requires WellFormed(d) && Entered(d, v0, u, kv, ke, visited) && m <= |d.adj[u]|
    ensures Newly(v0, visited) == ({u} + ReachUpTo(d, d.isLeaf, u, kv)) - Marked(v0)
    ensures u in Newly(v0, visited) && Newly(v0, visited) <= Tree(d, u) - Marked(v0)
    ensures Occ(d, d.isLeaf, Newly(v0, visited) - {u}) + EdgesUpTo(u, m)
      <= Occ(d, d.isLeaf, Tree(d, u) - Marked(v0))
  {
    var e := Newly(v0, visited);
    ReachUpToMono(d, d.isLeaf, u, kv, |d.adj[u]|);
    OccSub(d, d.isLeaf, e - {u}, Tree(d, u) - Marked(v0));
    forall p | p in EdgesUpTo(u, m)
      ensures p in Occ(d, d.isLeaf, Tree(d, u) - Marked(v0))
    {
      assert p == (p.0, p.1);
    }
  }

  /** An edge whose labels are already claimed makes the search fail. */
  lemma ScoreEdgeClash(d: Dag, v0: seq<bool>, t0: set<UTXO>, p0: set<(nat, int)>, u: nat, k: nat,
                       visited: seq<bool>, temp: set<UTXO>, pairs: set<(nat, int)>)
    requires WellFormed(d) && Scored(d, v0, t0, p0, u, k, k, visited, temp, pairs) && k < |d.adj[u]|
    requires !(EdgeClaim(d, u, k) !! pairs)
    ensures !SearchFree(d, v0, t0, p0, u)
  {
    var e := Newly(v0, visited);
    var o := Occ(d, d.isLeaf, e - {u}) + EdgesUpTo(u, k);
    var o' := Occ(d, d.isLeaf, e - {u}) + EdgesUpTo(u, k + 1);
    ScoredParts(d, v0, u, k, k, visited, k + 1);
    EdgesUpToNext(d, e, u, k);
    LabelClaimsAdd(d, o, u, k);
    FamilyAdd(p0, LabelClaims(d, o), (u, k), EdgeClaim(d, u, k));
    LabelClaimsSub(d, o', Occ(d, d.isLeaf, Tree(d, u) - Marked(v0)));
    FamilySub(p0, LabelClaims(d, o'), LabelClaims(d, Occ(d, d.isLeaf, Tree(d, u) - Marked(v0))));
  }

  /** Crossing an edge whose labels are unclaimed claims them. */
  lemma ScoreEdgeCross(d: Dag, v0: seq<bool>, t0: set<UTXO>, p0: set<(nat, int)>, u: nat, k: nat,
                       visited: seq<bool>, temp: set<UTXO>, pairs: set<(nat, int)>)
    requires WellFormed(d) && Scored(d, v0, t0, p0, u, k, k, visited, temp, pairs) && k < |d.adj[u]|
    requires EdgeClaim(d, u, k) !! pairs
    ensures Scored(d, v0, t0, p0, u, k, k + 1, visited, temp, pairs + EdgeClaim(d, u, k))
  {
    var e := Newly(v0, visited);
    var o := Occ(d, d.isLeaf, e - {u}) + EdgesUpTo(u, k);
    EdgesUpToNext(d, e, u, k);
    LabelClaimsAdd(d, o, u, k);
    FamilyAdd(p0, LabelClaims(d, o), (u, k), EdgeClaim(d, u, k));
  }

  /** The edges crossed, one edge further. */
  lemma EdgesUpToNext(d: Dag, e: set<nat>, u: nat, k: nat)
    ensures Occ(d, d.isLeaf, e - {u}) + EdgesUpTo(u, k + 1) == Occ(d, d.isLeaf, e - {u}) + EdgesUpTo(u, k) + {(u, k)}
    ensures (u, k) !in Occ(d, d.isLeaf, e - {u}) + EdgesUpTo(u, k)
  {
    assert EdgesUpTo(u, k + 1) == EdgesUpTo(u, k) + {(u, k)};
  }

  /** A successor already visited adds nothing: everything it reaches is visited. */
  lemma ScoreSkip(d: Dag, v0: seq<bool>, t0: set<UTXO>, p0: set<(nat, int)>, u: nat, k: nat,
                  visited: seq<bool>, temp: set<UTXO>, pairs: set<(nat, int)>)
    requires WellFormed(d) && Scored(d, v0, t0, p0, u, k, k + 1, visited, temp, pairs)
    requires visited[d.adj[u][k]]
    ensures Scored(d, v0, t0, p0, u, k + 1, k + 1, visited, temp, pairs)
  {
    ClosedReach(d, d.isLeaf, visited, d.rank[u], d.adj[u][k]);
  }

  /** The edges of `u` are not among the edges leaving nodes other than `u`. */
  lemma EdgesOutside(d: Dag, stop: seq<bool>, u: nat, m: nat, s: set<nat>)
    requires u !in s
    ensures EdgesUpTo(u, m) !! Occ(d, stop, s)
  {
    forall p | p in Occ(d, stop, s)
      ensures p !in EdgesUpTo(u, m)
    {
      assert p == (p.0, p.1);
    }
  }

  /** The edges leaving `e + nv` other than those of `u`, with the first `m` edges of `u`, split by `nv`. */
  lemma EdgesSplit(d: Dag, stop: seq<bool>, u: nat, m: nat, e: set<nat>, nv: set<nat>)
    requires u !in nv && e !! nv
    ensures Occ(d, stop, e - {u}) + EdgesUpTo(u, m) !! Occ(d, stop, nv)
    ensures Occ(d, stop, (e + nv) - {u}) + EdgesUpTo(u, m) == (Occ(d, stop, e - {u}) + EdgesUpTo(u, m)) + Occ(d, stop, nv)
  {
    OccJoin(d, stop, e - {u}, nv);
    EdgesOutside(d, stop, u, m, nv);
    assert (e + nv) - {u} == (e - {u}) + nv;
  }

  /** A search from `u` that is free stays free below its `k`-th successor, from where it stands. */
  lemma ScoreDescendFree(d: Dag, v0: seq<bool>, t0: set<UTXO>, p0: set<(nat, int)>, u: nat, k: nat,
                         visited: seq<bool>, temp: set<UTXO>, pairs: set<(nat, int)>)
    requires WellFormed(d) && Scored(d, v0, t0, p0, u, k, k + 1, visited, temp, pairs)
    requires !visited[d.adj[u][k]]
    ensures SearchFree(d, v0, t0, p0, u) ==> SearchFree(d, visited, temp, pairs, d.adj[u][k])
  {
    var v := d.adj[u][k];
    var e := Newly(v0, visited);
    var nv := Tree(d, v) - Marked(visited);
    var all := Tree(d, u) - Marked(v0);
    ScoredParts(d, v0, u, k, k + 1, visited, k + 1);
    ReachUpToHas(d, d.isLeaf, u, |d.adj[u]|, k);
    assert nv <= all && e !! nv;
    InputClaimsJoin(d, e, nv);
    InputClaimsSub(d, e + nv, all);
    FamilySub(t0, InputClaims(d, e + nv), InputClaims(d, all));
    FamilyJoin(t0, InputClaims(d, e), InputClaims(d, nv));
    var o := Occ(d, d.isLeaf, e - {u}) + EdgesUpTo(u, k + 1);
    var onv := Occ(d, d.isLeaf, nv);
    OccJoin(d, d.isLeaf, e - {u}, nv);
    EdgesOutside(d, d.isLeaf, u, k + 1, nv);
    OccSub(d, d.isLeaf, nv, all);
    LabelClaimsJoin(d, o, onv);
    LabelClaimsSub(d, o + onv, Occ(d, d.isLeaf, all));
    FamilySub(p0, LabelClaims(d, o + onv), LabelClaims(d, Occ(d, d.isLeaf, all)));
    FamilyJoin(p0, LabelClaims(d, o), LabelClaims(d, onv));
  }

  /** A free search below the `k`-th successor adds its tree to the search from `u`. */
  lemma ScoreDescend(d: Dag, v0: seq<bool>, t0: set<UTXO>, p0: set<(nat, int)>, u: nat, k: nat,
                     visited: seq<bool>, temp: set<UTXO>, pairs: set<(nat, int)>,
                     visited': seq<bool>, temp': set<UTXO>, pairs': set<(nat, int)>)
    requires WellFormed(d) && Scored(d, v0, t0, p0, u, k, k + 1, visited, temp, pairs)
    requires !visited[d.adj[u][k]] && SearchFree(d, visited, temp, pairs, d.adj[u][k])
    requires Searched(d, visited, temp, pairs, d.adj[u][k], visited', temp', pairs')
    ensures Scored(d, v0, t0, p0, u, k + 1, k + 1, visited', temp', pairs')
  {
    var v := d.adj[u][k];
    var e := Newly(v0, visited);
    var nv := Tree(d, v) - Marked(visited);
    ScoreDescendMarks(d, v0, u, k, visited, visited');
    InputsChain(d, e, nv, t0, temp, temp');
    var o := Occ(d, d.isLeaf, e - {u}) + EdgesUpTo(u, k + 1);
    var onv := Occ(d, d.isLeaf, nv);
    EdgesSplit(d, d.isLeaf, u, k + 1, e, nv);
    EdgesChain(d, o, onv, p0, pairs, pairs');
    ScoredFrom(d, v0, t0, p0, u, k + 1, visited', temp', pairs', o + onv);
  }

  /** Entering the unvisited successor `k` marks its tree and nothing else. */
  lemma ScoreDescendMarks(d: Dag, v0: seq<bool>, u: nat, k: nat, visited: seq<bool>, visited': seq<bool>)
    requires WellFormed(d) && Entered(d, v0, u, k, k + 1, visited)
    requires !visited[d.adj[u][k]] && MarkedAs(visited', visited, Tree(d, d.adj[u][k]))
    requires NewlyClosed(d, d.isLeaf, visited, visited')
    ensures Entered(d, v0, u, k + 1, k + 1, visited')
    ensures Newly(v0, visited') == Newly(v0, visited) + (Tree(d, d.adj[u][k]) - Marked(visited))
    ensures u !in Tree(d, d.adj[u][k]) - Marked(visited) && Newly(v0, visited) !! (Tree(d, d.adj[u][k]) - Marked(visited))
  {
    ClaimDescendMarks(d, d.isLeaf, v0, u, k, visited, visited');
  }

  /** Inputs claimed for two disjoint node sets in turn are those claimed for their union. */
  lemma InputsChain(d: Dag, e: set<nat>, e': set<nat>, t0: set<UTXO>, t1: set<UTXO>, t2: set<UTXO>)
    requires e !! e' && InputsClaimed(d, e, t0, t1)
    requires t2 == t1 + Union(InputClaims(d, e')) && FamilyFree(t1, InputClaims(d, e'))
    ensures InputsClaimed(d, e + e', t0, t2)
  {
    InputClaimsJoin(d, e, e');
    FamilyJoin(t0, InputClaims(d, e), InputClaims(d, e'));
  }

  /** Labels claimed for two disjoint edge sets in turn are those claimed for their union. */
  lemma EdgesChain(d: Dag, o: set<(nat, nat)>, o': set<(nat, nat)>, p0: set<(nat, int)>, p1: set<(nat, int)>, p2: set<(nat, int)>)
    requires o !! o' && EdgesClaimed(d, o, p0, p1)
    requires p2 == p1 + Union(LabelClaims(d, o')) && FamilyFree(p1, LabelClaims(d, o'))
    ensures EdgesClaimed(d, o + o', p0, p2)
  {
    LabelClaimsJoin(d, o, o');
    FamilyJoin(p0, LabelClaims(d, o), LabelClaims(d, o'));
  }

  /** Scored, from its three parts with the edge set named. */
  lemma ScoredFrom(d: Dag, v0: seq<bool>, t0: set<UTXO>, p0: set<(nat, int)>, u: nat, k: nat,
                   visited: seq<bool>, temp: set<UTXO>, pairs: set<(nat, int)>, o: set<(nat, nat)>)
    requires WellFormed(d) && Entered(d, v0, u, k, k, visited) && InputsClaimed(d, Newly(v0, visited), t0, temp)
    requires o == Occ(d, d.isLeaf, Newly(v0, visited) - {u}) + EdgesUpTo(u, k) && EdgesClaimed(d, o, p0, pairs)
    ensures Scored(d, v0, t0, p0, u, k, k, visited, temp, pairs)
  {
  }

  /** Once every successor is handled, the search from `u` is complete and was free. */
  lemma ScoreFinish(d: Dag, v0: seq<bool>, t0: set<UTXO>, p0: set<(nat, int)>, u: nat,
                    visited: seq<bool>, temp: set<UTXO>, pairs: set<(nat, int)>)
    requires WellFormed(d) && u < |d.adj|
    requires Scored(d, v0, t0, p0, u, |d.adj[u]|, |d.adj[u]|, visited, temp, pairs)
    ensures SearchFree(d, v0, t0, p0, u)
    ensures Searched(d, v0, t0, p0, u, visited, temp, pairs)
  {
    var m := |d.adj[u]|;
    ScoredParts(d, v0, u, m, m, visited, m);
    var e := Newly(v0, visited);
    assert e == Tree(d, u) - Marked(v0);
    OccJoin(d, d.isLeaf, e - {u}, {u});
    assert Occ(d, d.isLeaf, {u}) == EdgesUpTo(u, m) by {
      forall p | p in Occ(d, d.isLeaf, {u})
        ensures p in EdgesUpTo(u, m)
      {
        assert p == (p.0, p.1);
      }
    }
    assert (e - {u}) + {u} == e;
    forall j | 0 <= j < m
      ensures visited[d.adj[u][j]]
    {
      ReachUpToHas(d, d.isLeaf, u, m, j);
    }
  }

  // ---------------------------------------------------------------------------
  // The claim, step by step
  // ---------------------------------------------------------------------------

  /**
   * A claim from `u` that has marked `u` used, claimed below its first `kv`
   * successors and claimed the labels of its first `ke` edges, starting from
   * used marks `u0` and label pairs `p0`: the used marks are `used` and the
   * label pairs `pairs`, the start plus the labels of every edge crossed.
   */
  ghost predicate Claiming(d: Dag, stop: seq<bool>, u0: seq<bool>, p0: set<(nat, int)>, u: nat, kv: nat, ke: nat,
                           used: seq<bool>, pairs: set<(nat, int)>)
    requires WellFormed(d) && |stop| == |d.adj|
  {
    && ClaimEntered(d, stop, u0, u, kv, ke, used)
    && LabelsAdded(d, Occ(d, stop, Newly(u0, used) - {u}) + EdgesUpTo(u, ke), p0, pairs)
  }

  /** The label pairs are `p0` plus those the edges `o` spend. */
  ghost predicate LabelsAdded(d: Dag, o: set<(nat, nat)>, p0: set<(nat, int)>, pairs: set<(nat, int)>)
  {
    pairs == p0 + Union(LabelClaims(d, o))
  }

  /** The used marks of a claim from `u` that has claimed below the first `kv` successors of `u`. */
  ghost predicate ClaimEntered(d: Dag, stop: seq<bool>, u0: seq<bool>, u: nat, kv: nat, ke: nat, used: seq<bool>)
    requires WellFormed(d) && |stop| == |d.adj|
  {
    && u < |d.adj| && kv <= ke <= |d.adj[u]| && !stop[u] && |u0| == |d.adj| && !u0[u]
    && MarkedAs(used, u0, {u} + ReachUpTo(d, stop, u, kv))
    && ClosedBelow(d, stop, used, d.rank[u])
  }

  /**
   * A completed claim from `u`: everything `u` reaches is used, the labels of
   * every edge leaving a newly used node are claimed, and every newly used
   * node has all its successors used.
   */
  ghost predicate Claimed(d: Dag, stop: seq<bool>, u0: seq<bool>, p0: set<(nat, int)>, u: nat, used: seq<bool>, pairs: set<(nat, int)>)
    requires WellFormed(d) && |stop| == |d.adj| && u < |d.adj|
  {
    && |u0| == |d.adj| && MarkedAs(used, u0, Reach(d, stop, u))
    && NewlyClosed(d, stop, u0, used)
    && LabelsAdded(d, Occ(d, stop, Reach(d, stop, u) - Marked(u0)), p0, pairs)
  }

  /** The nodes a claim has marked so far, besides those used before. */
  lemma ClaimParts(d: Dag, stop: seq<bool>, u0: seq<bool>, u: nat, kv: nat, ke: nat, used: seq<bool>)
    requires WellFormed(d) && |stop| == |d.adj| && ClaimEntered(d, stop, u0, u, kv, ke, used)
    ensures Newly(u0, used) == ({u} + ReachUpTo(d, stop, u, kv)) - Marked(u0)
  {
  }

  /** Marking an unused node starts the claim from it. */
  lemma ClaimStart(d: Dag, stop: seq<bool>, u0: seq<bool>, p0: set<(nat, int)>, u: nat)
    requires WellFormed(d) && |stop| == |d.adj| && u < |d.adj| && !stop[u] && |u0| == |d.adj| && !u0[u]
    requires ClosedBelow(d, stop, u0, d.rank[u])
    ensures Claiming(d, stop, u0, p0, u, 0, 0, u0[u := true], p0)
  {
    assert Newly(u0, u0[u := true]) == {u};
    assert Occ(d, stop, {u} - {u}) + EdgesUpTo(u, 0) == {};
    assert LabelClaims(d, {}) == map[];
  }

  /** Crossing the next edge claims its labels. */
  lemma ClaimCross(d: Dag, stop: seq<bool>, u0: seq<bool>, p0: set<(nat, int)>, u: nat, k: nat, used: seq<bool>, pairs: set<(nat, int)>)
    requires WellFormed(d) && |stop| == |d.adj| && Claiming(d, stop, u0, p0, u, k, k, used, pairs) && k < |d.adj[u]|
    ensures Claiming(d, stop, u0, p0, u, k, k + 1, used, pairs + EdgeClaim(d, u, k))
  {
    var e := Occ(d, stop, Newly(u0, used) - {u});
    LabelsAddEdge(d, e, u, k, p0, pairs);
    ClaimEnteredCross(d, stop, u0, u, k, used);
    ClaimingFrom(d, stop, u0, p0, u, k, k + 1, used, pairs + EdgeClaim(d, u, k), e + EdgesUpTo(u, k + 1));
  }

  /** The used marks do not depend on how many edges past the successors searched below were crossed. */
  lemma ClaimEnteredCross(d: Dag, stop: seq<bool>, u0: seq<bool>, u: nat, k: nat, used: seq<bool>)
    requires WellFormed(d) && |stop| == |d.adj| && ClaimEntered(d, stop, u0, u, k, k, used) && k < |d.adj[u]|
    ensures ClaimEntered(d, stop, u0, u, k, k + 1, used)
  {
  }

  /** Crossing the `k`-th edge of `u`, whose own node's other edges `e` are already crossed, adds its labels. */
  lemma LabelsAddEdge(d: Dag, e: set<(nat, nat)>, u: nat, k: nat, p0: set<(nat, int)>, pairs: set<(nat, int)>)
    requires u < |d.adj| && k < |d.adj[u]| && (forall j: nat :: (u, j) !in e)
    requires LabelsAdded(d, e + EdgesUpTo(u, k), p0, pairs)
    ensures LabelsAdded(d, e + EdgesUpTo(u, k + 1), p0, pairs + EdgeClaim(d, u, k))
  {
    var o := e + EdgesUpTo(u, k);
    assert o + {(u, k)} == e + EdgesUpTo(u, k + 1);
    LabelClaimsAdd(d, o, u, k);
    UnionAdd(LabelClaims(d, o), (u, k), EdgeClaim(d, u, k));
  }

  /** A successor already used adds nothing: everything it reaches is used. */
  lemma ClaimSkip(d: Dag, stop: seq<bool>, u0: seq<bool>, p0: set<(nat, int)>, u: nat, k: nat, used: seq<bool>, pairs: set<(nat, int)>)
    requires WellFormed(d) && |stop| == |d.adj| && Claiming(d, stop, u0, p0, u, k, k + 1, used, pairs)
    requires used[d.adj[u][k]]
    ensures Claiming(d, stop, u0, p0, u, k + 1, k + 1, used, pairs)
  {
    ClosedReach(d, stop, used, d.rank[u], d.adj[u][k]);
  }

  /** Labels added for two disjoint edge sets in turn are those added for their union. */
  lemma LabelsChain(d: Dag, o: set<(nat, nat)>, o': set<(nat, nat)>, p0: set<(nat, int)>, p1: set<(nat, int)>, p2: set<(nat, int)>)
    requires o !! o' && LabelsAdded(d, o, p0, p1) && LabelsAdded(d, o', p1, p2)
    ensures LabelsAdded(d, o + o', p0, p2)
  {
    LabelClaimsJoin(d, o, o');
    FamilyJoin(p0, LabelClaims(d, o), LabelClaims(d, o'));
  }

  /** Claiming, from its two halves with the edge set named. */
  lemma ClaimingFrom(d: Dag, stop: seq<bool>, u0: seq<bool>, p0: set<(nat, int)>, u: nat, kv: nat, ke: nat, used: seq<bool>,
                     pairs: set<(nat, int)>, o: set<(nat, nat)>)
    requires WellFormed(d) && |stop| == |d.adj| && ClaimEntered(d, stop, u0, u, kv, ke, used)
    requires o == Occ(d, stop, Newly(u0, used) - {u}) + EdgesUpTo(u, ke) && LabelsAdded(d, o, p0, pairs)
    ensures Claiming(d, stop, u0, p0, u, kv, ke, used, pairs)
  {
  }

  /** A completed claim below the `k`-th successor adds its part to the claim from `u`. */
  lemma ClaimDescend(d: Dag, stop: seq<bool>, u0: seq<bool>, p0: set<(nat, int)>, u: nat, k: nat, used: seq<bool>, pairs: set<(nat, int)>,
                     used': seq<bool>, pairs': set<(nat, int)>)
    requires WellFormed(d) && |stop| == |d.adj| && Claiming(d, stop, u0, p0, u, k, k + 1, used, pairs)
    requires !used[d.adj[u][k]] && Claimed(d, stop, used, pairs, d.adj[u][k], used', pairs')
    ensures Claiming(d, stop, u0, p0, u, k + 1, k + 1, used', pairs')
  {
    var v := d.adj[u][k];
    var e := Newly(u0, used);
    var nv := Reach(d, stop, v) - Marked(used);
    ClaimDescendMarks(d, stop, u0, u, k, used, used');
    var o := Occ(d, stop, e - {u}) + EdgesUpTo(u, k + 1);
    var onv := Occ(d, stop, nv);
    EdgesSplit(d, stop, u, k + 1, e, nv);
    LabelsChain(d, o, onv, p0, pairs, pairs');
    ClaimingFrom(d, stop, u0, p0, u, k + 1, k + 1, used', pairs', o + onv);
  }

  /** Crossing the `k`-th edge into a used successor completes that step of the claim. */
  lemma ClaimPast(d: Dag, stop: seq<bool>, u0: seq<bool>, p0: set<(nat, int)>, u: nat, k: nat, used: seq<bool>, pairs: set<(nat, int)>)
    requires WellFormed(d) && |stop| == |d.adj| && Claiming(d, stop, u0, p0, u, k, k, used, pairs) && k < |d.adj[u]|
    requires used[d.adj[u][k]]
    ensures Claiming(d, stop, u0, p0, u, k + 1, k + 1, used, pairs + EdgeClaim(d, u, k))
  {
    ClaimCross(d, stop, u0, p0, u, k, used, pairs);
    ClaimSkip(d, stop, u0, p0, u, k, used, pairs + EdgeClaim(d, u, k));
  }

  /** Before the claim descends into its `k`-th successor, the used marks are closed below that successor. */
  lemma ClaimReady(d: Dag, stop: seq<bool>, u0: seq<bool>, p0: set<(nat, int)>, u: nat, k: nat, used: seq<bool>, pairs: set<(nat, int)>)
    requires WellFormed(d) && |stop| == |d.adj| && Claiming(d, stop, u0, p0, u, k, k, used, pairs) && k < |d.adj[u]|
    ensures |used| == |d.adj| && ClosedBelow(d, stop, used, d.rank[d.adj[u][k]])
  {
  }

  /** Crossing the `k`-th edge into an unused successor and claiming below it completes that step of the claim. */
  lemma ClaimBelow(d: Dag, stop: seq<bool>, u0: seq<bool>, p0: set<(nat, int)>, u: nat, k: nat, used: seq<bool>, pairs: set<(nat, int)>,
                   used': seq<bool>, pairs': set<(nat, int)>)
    requires WellFormed(d) && |stop| == |d.adj| && Claiming(d, stop, u0, p0, u, k, k, used, pairs) && k < |d.adj[u]|
    requires !used[d.adj[u][k]] && Claimed(d, stop, used, pairs + EdgeClaim(d, u, k), d.adj[u][k], used', pairs')
    ensures Claiming(d, stop, u0, p0, u, k + 1, k + 1, used', pairs')
  {
    ClaimCross(d, stop, u0, p0, u, k, used, pairs);
    ClaimDescend(d, stop, u0, p0, u, k, used, pairs + EdgeClaim(d, u, k), used', pairs');
  }

  /** The used marks after a completed claim below the `k`-th successor. */
  lemma ClaimDescendMarks(d: Dag, stop: seq<bool>, u0: seq<bool>, u: nat, k: nat, used: seq<bool>, used': seq<bool>)
    requires WellFormed(d) && |stop| == |d.adj| && ClaimEntered(d, stop, u0, u, k, k + 1, used)
    requires !used[d.adj[u][k]] && MarkedAs(used', used, Reach(d, stop, d.adj[u][k]))
    requires NewlyClosed(d, stop, used, used')
    ensures ClaimEntered(d, stop, u0, u, k + 1, k + 1, used')
    ensures Newly(u0, used') == Newly(u0, used) + (Reach(d, stop, d.adj[u][k]) - Marked(used))
    ensures u !in Reach(d, stop, d.adj[u][k]) - Marked(used) && Newly(u0, used) !! (Reach(d, stop, d.adj[u][k]) - Marked(used))
  {
    ClaimParts(d, stop, u0, u, k, k + 1, used);
    assert ReachUpTo(d, stop, u, k + 1) == ReachUpTo(d, stop, u, k) + Reach(d, stop, d.adj[u][k]);
  }

  /** Once every successor is handled, the claim from `u` is complete. */
  lemma ClaimDone(d: Dag, stop: seq<bool>, u0: seq<bool>, p0: set<(nat, int)>, u: nat, used: seq<bool>, pairs: set<(nat, int)>)
    requires WellFormed(d) && |stop| == |d.adj| && u < |d.adj|
    requires Claiming(d, stop, u0, p0, u, |d.adj[u]|, |d.adj[u]|, used, pairs)
    ensures Claimed(d, stop, u0, p0, u, used, pairs)
  {
    ClaimDoneMarks(d, stop, u0, u, used);
    ClaimDoneLabels(d, stop, u, Newly(u0, used), p0, pairs);
  }

  /** Once every successor is handled, the claim from `u` has used exactly what `u` reaches, with successors closed. */
  lemma ClaimDoneMarks(d: Dag, stop: seq<bool>, u0: seq<bool>, u: nat, used: seq<bool>)
    requires WellFormed(d) && |stop| == |d.adj| && u < |d.adj|
    requires ClaimEntered(d, stop, u0, u, |d.adj[u]|, |d.adj[u]|, used)
    ensures MarkedAs(used, u0, Reach(d, stop, u)) && NewlyClosed(d, stop, u0, used)
    ensures Newly(u0, used) == Reach(d, stop, u) - Marked(u0)
  {
    var m := |d.adj[u]|;
    assert Reach(d, stop, u) == {u} + ReachUpTo(d, stop, u, m);
    forall j | 0 <= j < m
      ensures used[d.adj[u][j]]
    {
      ReachUpToHas(d, stop, u, m, j);
    }
  }

  /** The edges crossed from `u` and those leaving the other newly used nodes are those leaving all of them. */
  lemma ClaimDoneLabels(d: Dag, stop: seq<bool>, u: nat, e: set<nat>, p0: set<(nat, int)>, pairs: set<(nat, int)>)
    requires WellFormed(d) && |stop| == |d.adj| && u < |d.adj| && !stop[u] && u in e
    requires LabelsAdded(d, Occ(d, stop, e - {u}) + EdgesUpTo(u, |d.adj[u]|), p0, pairs)
    ensures LabelsAdded(d, Occ(d, stop, e), p0, pairs)
  {
    OccJoin(d, stop, e - {u}, {u});
    assert Occ(d, stop, {u}) == EdgesUpTo(u, |d.adj[u]|) by {
      forall p | p in Occ(d, stop, {u})
        ensures p in EdgesUpTo(u, |d.adj[u]|)
      {
        assert p == (p.0, p.1);
      }
    }
    assert (e - {u}) + {u} == e;
  }

  /** Marks closed under edges stay closed when the newly marked nodes have their successors marked. */
  lemma ClosedAfter(d: Dag, stop: seq<bool>, before: seq<bool>, after: seq<bool>, s: set<nat>)
    requires WellFormed(d) && |stop| == |d.adj| && |before| == |d.adj| && Closed(d, stop, before)
    requires MarkedAs(after, before, s) && NewlyClosed(d, stop, before, after)
    ensures Closed(d, stop, after)
  {
  }

  // ---------------------------------------------------------------------------
  // The list of claimed nodes
  // ---------------------------------------------------------------------------

  /** Every node of `s` comes after every producer it has an edge to. */
  ghost predicate PostOrdered(adj: seq<seq<nat>>, s: seq<nat>)
  {
    if s == [] then true
    else
      var last := s[|s| - 1];
      var pre := s[..|s| - 1];
      && PostOrdered(adj, pre)
      && last < |adj|
      && forall k | 0 <= k < |adj[last]| :: adj[last][k] in pre
  }

  /**
   * From marks `before` and list `result` to marks `after` and list `result'`:
   * marks only grow, and `result'` extends `result` with exactly the nodes
   * newly marked.
   */
  ghost predicate Extends(before: seq<bool>, result: seq<nat>, after: seq<bool>, result': seq<nat>)
  {
    && Grows(before, after)
    && |result| <= |result'| && result'[..|result|] == result
    && (forall i | |result| <= i < |result'| :: result'[i] < |before| && !before[result'[i]])
    && (forall x | 0 <= x < |after| && after[x] && !before[x] :: x in result')
  }

  lemma ExtendsTransitive(a: seq<bool>, ra: seq<nat>, b: seq<bool>, rb: seq<nat>, c: seq<bool>, rc: seq<nat>)
    requires Extends(a, ra, b, rb) && Extends(b, rb, c, rc)
    ensures Extends(a, ra, c, rc)
  {
    assert rc[..|ra|] == rb[..|ra|];
    forall i | |ra| <= i < |rc|
      ensures rc[i] < |a| && !a[rc[i]]
    {
      if i < |rb| {
        assert rc[i] == rb[i];
      }
    }
  }

  /** Whatever is in a prefix is in the whole. */
  lemma InPrefix(prefix: seq<nat>, s: seq<nat>)
    requires |prefix| <= |s| && s[..|prefix|] == prefix
    ensures forall x | x in prefix :: x in s
  {
    forall x | x in prefix
      ensures x in s
    {
      var i :| 0 <= i < |prefix| && prefix[i] == x;
      assert s[i] == x;
    }
  }

  /** Appending `u` closes a search that marked `u` first. */
  lemma ExtendsClose(before: seq<bool>, u: nat, result: seq<nat>, after: seq<bool>, result': seq<nat>)
    requires u < |before| && !before[u]
    requires Extends(before[u := true], result, after, result')
    ensures Extends(before, result, after, result' + [u])
  {
    var r := result' + [u];
    assert r[..|result|] == result' [..|result|];
  }

  /**
   * A claim from `u` that has handled the first `k` successors of `u`: it
   * started from marks `start` (with `u` already marked) and list `result`,
   * and has reached marks `used` and list `cur`.
   */
  ghost predicate GrabProgress(adj: seq<seq<nat>>, rank: seq<nat>, start: seq<bool>, result: seq<nat>,
                               used: seq<bool>, cur: seq<nat>, u: nat, k: nat)
  {
    && u < |adj| && k <= |adj[u]| && |rank| == |adj| && |start| == |adj| && start[u]
    && Extends(start, result, used, cur)
    && (forall i | 0 <= i < |cur| :: cur[i] < |used| && used[cur[i]])
    && Distinct(cur) && PostOrdered(adj, cur) && u !in cur
    && (forall x | 0 <= x < |used| && used[x] && rank[x] < rank[u] :: x in cur)
    && (forall j | 0 <= j < k :: adj[u][j] in cur)
  }

  /** A successor already claimed is already listed. */
  lemma GrabSkip(adj: seq<seq<nat>>, rank: seq<nat>, start: seq<bool>, result: seq<nat>,
                 used: seq<bool>, cur: seq<nat>, u: nat, k: nat)
    requires GrabProgress(adj, rank, start, result, used, cur, u, k) && k < |adj[u]|
    requires adj[u][k] < |used| && used[adj[u][k]] && rank[adj[u][k]] < rank[u]
    ensures GrabProgress(adj, rank, start, result, used, cur, u, k + 1)
  {
  }

  /** Claiming the closure of the next successor keeps the progress. */
  lemma GrabAdvance(adj: seq<seq<nat>>, rank: seq<nat>, start: seq<bool>, result: seq<nat>,
                    used: seq<bool>, cur: seq<nat>, used': seq<bool>, cur': seq<nat>, u: nat, k: nat)
    requires GrabProgress(adj, rank, start, result, used, cur, u, k) && k < |adj[u]|
    requires Extends(used, cur, used', cur') && |cur'| > |cur| && cur'[|cur'| - 1] == adj[u][k]
    requires forall i | 0 <= i < |cur'| :: cur'[i] < |used'| && used'[cur'[i]]
    requires Distinct(cur') && PostOrdered(adj, cur')
    ensures GrabProgress(adj, rank, start, result, used', cur', u, k + 1)
  {
    ExtendsTransitive(start, result, used, cur, used', cur');
    InPrefix(cur, cur');
  }

  /** Appending `u` once all its successors are handled completes the claim. */
  lemma GrabFinish(adj: seq<seq<nat>>, rank: seq<nat>, before: seq<bool>, result: seq<nat>,
                   used: seq<bool>, cur: seq<nat>, u: nat)
    requires u < |before| && !before[u] && u < |adj|
    requires GrabProgress(adj, rank, before[u := true], result, used, cur, u, |adj[u]|)
    ensures Extends(before, result, used, cur + [u])
    ensures forall i | 0 <= i < |cur| + 1 :: (cur + [u])[i] < |used| && used[(cur + [u])[i]]
    ensures Distinct(cur + [u]) && PostOrdered(adj, cur + [u])
  {
    ExtendsClose(before, u, result, used, cur);
    assert (cur + [u])[..|cur|] == cur;
  }

  /** No node occurs twice. */
  predicate Distinct(s: seq<nat>)
  {
    s == [] || (Distinct(s[..|s| - 1]) && s[|s| - 1] !in s[..|s| - 1])
  }

  // ---------------------------------------------------------------------------
  // The searches, run on values
  // ---------------------------------------------------------------------------

  /** The marks of a tree search: nodes visited, confirmed outputs claimed, output positions claimed per producer. */
  datatype Search = Search(visited: seq<bool>, temp: set<UTXO>, usedIndex: seq<set<int>>)

  /** The marks of a claim: nodes used, output positions claimed per producer, nodes listed so far. */
  datatype Grabbing = Grabbing(used: seq<bool>, usedIndex: seq<set<int>>, result: seq<nat>)

  /** No fee is negative. */
  predicate FeesNonNegative(d: Dag)
  {
    forall i | 0 <= i < |d.value| :: d.value[i] >= 0
  }

  /**
   * The depth-first value search from `u`, step by step as the graph object
   * runs it: -1 as soon as a confirmed output or an output position is met a
   * second time, otherwise the fees of the nodes it newly visits; with the
   * marks it leaves.
   */
  function ScoreRun(d: Dag, s: Search, u: nat): (out: (int, Search))
    requires WellFormed(d) && |s.visited| == |d.adj| && |s.usedIndex| == |d.adj| && u < |d.adj|
    decreases d.rank[u], 1
    ensures |out.1.visited| == |d.adj| && |out.1.usedIndex| == |d.adj|
  {
    if !(d.usedInputs[u] !! s.temp) then (-1, s)
    else
      var entered := Search(s.visited[u := true], s.temp + d.usedInputs[u], s.usedIndex);
      if d.isLeaf[u] then (d.value[u], entered)
      else ScoreRunFrom(d, entered, u, 0, d.value[u])
  }

  /** The value search from `u`, from its `k`-th edge on, with `res` found so far. */
  function ScoreRunFrom(d: Dag, s: Search, u: nat, k: nat, res: int): (out: (int, Search))
    requires WellFormed(d) && |s.visited| == |d.adj| && |s.usedIndex| == |d.adj| && u < |d.adj| && k <= |d.adj[u]|
    decreases d.rank[u], 0, |d.adj[u]| - k
    ensures |out.1.visited| == |d.adj| && |out.1.usedIndex| == |d.adj|
  {
    if k == |d.adj[u]| then (res, s)
    else
      var v := d.adj[u][k];
      var labels := LabelsOf(d.labels, u, v);
      if !(labels !! s.usedIndex[v]) then (-1, s)
      else
        var crossed := s.(usedIndex := s.usedIndex[v := s.usedIndex[v] + labels]);
        if crossed.visited[v] then ScoreRunFrom(d, crossed, u, k + 1, res)
        else
          var below := ScoreRun(d, crossed, v);
          if below.0 < 0 then (-1, below.1)
          else ScoreRunFrom(d, below.1, u, k + 1, res + below.0)
  }

  /** What a value search from `u`, started over marks `s`, promises when it ends with `out`. */
  ghost predicate ScoreRunEnd(d: Dag, s: Search, u: nat, out: (int, Search))
    requires WellFormed(d) && |s.visited| == |d.adj| && u < |d.adj|
  {
    && (out.0 == -1 <==> !SearchFree(d, s.visited, s.temp, Pairs(s.usedIndex), u))
    && (out.0 != -1 ==>
          && Searched(d, s.visited, s.temp, Pairs(s.usedIndex), u, out.1.visited, out.1.temp, Pairs(out.1.usedIndex))
          && 0 <= out.0 == NewlyMarkedSum(d.value, s.visited, out.1.visited))
  }

  /**
   * The value search from an unvisited `u`, over marks closed below it, fails
   * exactly when the new part of the tree of `u` claims something twice;
   * otherwise it has visited that tree, recorded its claims and found its fees.
   */
  lemma {:induction false} ScoreRunSound(d: Dag, s: Search, u: nat)
    requires WellFormed(d) && FeesNonNegative(d) && |s.visited| == |d.adj| && |s.usedIndex| == |d.adj| && u < |d.adj|
    requires !s.visited[u] && ClosedBelow(d, d.isLeaf, s.visited, d.rank[u])
    decreases d.rank[u], 1
    ensures ScoreRunEnd(d, s, u, ScoreRun(d, s, u))
  {
    var v0, t0, p0 := s.visited, s.temp, Pairs(s.usedIndex);
    if !(d.usedInputs[u] !! t0) {
      ScoreInputClash(d, v0, t0, p0, u);
    } else {
      var entered := Search(v0[u := true], t0 + d.usedInputs[u], s.usedIndex);
      NewlyMarkedSumOne(d.value, v0, u);
      if d.isLeaf[u] {
        ScoreLeaf(d, v0, t0, p0, u);
      } else {
        ScoreStart(d, v0, t0, p0, u);
        ScoreRunFromSound(d, v0, t0, p0, u, 0, entered, d.value[u]);
        var out := ScoreRunFrom(d, entered, u, 0, d.value[u]);
        assert ScoreRun(d, s, u) == out;
        if out.0 != -1 {
          ScoreFinish(d, v0, t0, p0, u, out.1.visited, out.1.temp, Pairs(out.1.usedIndex));
        }
      }
    }
  }

  /** What a value search from `u`, started over marks `v0`, `t0`, `p0`, promises when it ends with `out`. */
  ghost predicate ScoreEnd(d: Dag, v0: seq<bool>, t0: set<UTXO>, p0: set<(nat, int)>, u: nat, out: (int, Search))
    requires WellFormed(d) && |v0| == |d.adj| && u < |d.adj|
  {
    && (out.0 == -1 ==> !SearchFree(d, v0, t0, p0, u))
    && (out.0 != -1 ==>
          && |out.1.visited| == |d.adj|
          && Scored(d, v0, t0, p0, u, |d.adj[u]|, |d.adj[u]|, out.1.visited, out.1.temp, Pairs(out.1.usedIndex))
          && 0 <= out.0 == NewlyMarkedSum(d.value, v0, out.1.visited))
  }

  /** The value search from `u`, resumed at its `k`-th edge, keeps the search sound to its end. */
  lemma {:induction false} ScoreRunFromSound(d: Dag, v0: seq<bool>, t0: set<UTXO>, p0: set<(nat, int)>, u: nat, k: nat, s: Search, res: int)
    requires WellFormed(d) && FeesNonNegative(d) && |s.visited| == |d.adj| && |s.usedIndex| == |d.adj| && u < |d.adj| && k <= |d.adj[u]|
    requires |v0| == |d.adj| && Scored(d, v0, t0, p0, u, k, k, s.visited, s.temp, Pairs(s.usedIndex))
    requires res == NewlyMarkedSum(d.value, v0, s.visited)
    decreases d.rank[u], 0, |d.adj[u]| - k
    ensures ScoreEnd(d, v0, t0, p0, u, ScoreRunFrom(d, s, u, k, res))
  {
    if k == |d.adj[u]| {
      NewlyMarkedSumNonNegative(d.value, v0, s.visited);
      assert ScoreRunFrom(d, s, u, k, res) == (res, s);
    } else {
      var v := d.adj[u][k];
      var labels := LabelsOf(d.labels, u, v);
      PairsCheck(s.usedIndex, v, labels);
      if !(labels !! s.usedIndex[v]) {
        ScoreEdgeClash(d, v0, t0, p0, u, k, s.visited, s.temp, Pairs(s.usedIndex));
        assert ScoreRunFrom(d, s, u, k, res) == (-1, s);
      } else {
        ScoreCrossSound(d, v0, t0, p0, u, k, s, res);
      }
    }
  }

  /** The value search from `u` over its `k`-th edge, once the edge is found free. */
  lemma {:induction false} ScoreCrossSound(d: Dag, v0: seq<bool>, t0: set<UTXO>, p0: set<(nat, int)>, u: nat, k: nat, s: Search, res: int)
    requires WellFormed(d) && FeesNonNegative(d) && |s.visited| == |d.adj| && |s.usedIndex| == |d.adj| && u < |d.adj| && k < |d.adj[u]|
    requires |v0| == |d.adj| && Scored(d, v0, t0, p0, u, k, k, s.visited, s.temp, Pairs(s.usedIndex))
    requires LabelsOf(d.labels, u, d.adj[u][k]) !! s.usedIndex[d.adj[u][k]]
    requires res == NewlyMarkedSum(d.value, v0, s.visited)
    decreases d.rank[u], 0, |d.adj[u]| - k, 2
    ensures ScoreEnd(d, v0, t0, p0, u, ScoreRunFrom(d, s, u, k, res))
  {
    var v := d.adj[u][k];
    var labels := LabelsOf(d.labels, u, v);
    var crossed := s.(usedIndex := s.usedIndex[v := s.usedIndex[v] + labels]);
    if crossed.visited[v] {
      assert ScoreEnd(d, v0, t0, p0, u, ScoreRunFrom(d, crossed, u, k + 1, res)) by {
        PairsCheck(s.usedIndex, v, labels);
        ScoreEdgeCross(d, v0, t0, p0, u, k, s.visited, s.temp, Pairs(s.usedIndex));
        PairsAdd(s.usedIndex, v, labels);
        ScoreSkip(d, v0, t0, p0, u, k, crossed.visited, crossed.temp, Pairs(crossed.usedIndex));
        ScoreRunFromSound(d, v0, t0, p0, u, k + 1, crossed, res);
      }
      ScoreEndSkip(d, v0, t0, p0, u, k, s, res, crossed);
    } else {
      var below := ScoreRun(d, crossed, v);
      assert below.0 < 0 ==> !SearchFree(d, v0, t0, p0, u) by {
        PairsCheck(s.usedIndex, v, labels);
        ScoreEdgeCross(d, v0, t0, p0, u, k, s.visited, s.temp, Pairs(s.usedIndex));
        PairsAdd(s.usedIndex, v, labels);
        ScoreRunSound(d, crossed, v);
        ScoreDescendFree(d, v0, t0, p0, u, k, crossed.visited, crossed.temp, Pairs(crossed.usedIndex));
      }
      assert below.0 >= 0 ==> ScoredBelow(d, v0, t0, p0, u, k, res, below) by {
        PairsCheck(s.usedIndex, v, labels);
        ScoreEdgeCross(d, v0, t0, p0, u, k, s.visited, s.temp, Pairs(s.usedIndex));
        PairsAdd(s.usedIndex, v, labels);
        ScoreRunSound(d, crossed, v);
        if below.0 >= 0 {
          ScoreBelowState(d, v0, t0, p0, u, k, crossed, res, below);
        }
      }
      assert below.0 >= 0 ==> ScoreEnd(d, v0, t0, p0, u, ScoreRunFrom(d, below.1, u, k + 1, res + below.0)) by {
        if below.0 >= 0 {
          ScoreBelowSound(d, v0, t0, p0, u, k, res, below);
        }
      }
      ScoreEndDescend(d, v0, t0, p0, u, k, s, res, crossed, below);
    }
  }

  /** The promise of the value search from `u` over its free `k`-th edge, into a visited successor, is that of the rest of the search. */
  lemma ScoreEndSkip(d: Dag, v0: seq<bool>, t0: set<UTXO>, p0: set<(nat, int)>, u: nat, k: nat, s: Search, res: int, crossed: Search)
    requires WellFormed(d) && |s.visited| == |d.adj| && |s.usedIndex| == |d.adj| && u < |d.adj| && k < |d.adj[u]| && |v0| == |d.adj|
    requires LabelsOf(d.labels, u, d.adj[u][k]) !! s.usedIndex[d.adj[u][k]]
    requires crossed == s.(usedIndex := s.usedIndex[d.adj[u][k] := s.usedIndex[d.adj[u][k]] + LabelsOf(d.labels, u, d.adj[u][k])])
    requires crossed.visited[d.adj[u][k]]
    requires ScoreEnd(d, v0, t0, p0, u, ScoreRunFrom(d, crossed, u, k + 1, res))
    ensures ScoreEnd(d, v0, t0, p0, u, ScoreRunFrom(d, s, u, k, res))
  {
    assert ScoreRunFrom(d, s, u, k, res) == ScoreRunFrom(d, crossed, u, k + 1, res);
  }

  /** The promise of the value search from `u` over its free `k`-th edge, into an unvisited successor searched to `below`, is that of the rest of the search. */
  lemma ScoreEndDescend(d: Dag, v0: seq<bool>, t0: set<UTXO>, p0: set<(nat, int)>, u: nat, k: nat, s: Search, res: int,
                        crossed: Search, below: (int, Search))
    requires WellFormed(d) && |s.visited| == |d.adj| && |s.usedIndex| == |d.adj| && u < |d.adj| && k < |d.adj[u]| && |v0| == |d.adj|
    requires LabelsOf(d.labels, u, d.adj[u][k]) !! s.usedIndex[d.adj[u][k]]
    requires crossed == s.(usedIndex := s.usedIndex[d.adj[u][k] := s.usedIndex[d.adj[u][k]] + LabelsOf(d.labels, u, d.adj[u][k])])
    requires !crossed.visited[d.adj[u][k]] && below == ScoreRun(d, crossed, d.adj[u][k])
    requires below.0 < 0 ==> !SearchFree(d, v0, t0, p0, u)
    requires below.0 >= 0 ==> ScoreEnd(d, v0, t0, p0, u, ScoreRunFrom(d, below.1, u, k + 1, res + below.0))
    ensures ScoreEnd(d, v0, t0, p0, u, ScoreRunFrom(d, s, u, k, res))
  {
    if below.0 < 0 {
      assert ScoreRunFrom(d, s, u, k, res) == (-1, below.1);
    } else {
      assert ScoreRunFrom(d, s, u, k, res) == ScoreRunFrom(d, below.1, u, k + 1, res + below.0);
    }
  }

  /** After the descent into the `k`-th successor of `u`, the search `below` stands scored up to edge `k + 1`, with its fees added. */
  ghost predicate ScoredBelow(d: Dag, v0: seq<bool>, t0: set<UTXO>, p0: set<(nat, int)>, u: nat, k: nat, res: int, below: (int, Search))
    requires WellFormed(d)
  {
    && |below.1.visited| == |d.adj| && |below.1.usedIndex| == |d.adj| && |v0| == |d.adj|
    && Scored(d, v0, t0, p0, u, k + 1, k + 1, below.1.visited, below.1.temp, Pairs(below.1.usedIndex))
    && res + below.0 == NewlyMarkedSum(d.value, v0, below.1.visited)
  }

  /** The value search from `u` resumed after a successful descent into its `k`-th successor. */
  lemma {:induction false} ScoreBelowSound(d: Dag, v0: seq<bool>, t0: set<UTXO>, p0: set<(nat, int)>, u: nat, k: nat, res: int,
                                           below: (int, Search))
    requires WellFormed(d) && FeesNonNegative(d) && u < |d.adj| && k < |d.adj[u]| && ScoredBelow(d, v0, t0, p0, u, k, res, below)
    decreases d.rank[u], 0, |d.adj[u]| - k, 1
    ensures ScoreEnd(d, v0, t0, p0, u, ScoreRunFrom(d, below.1, u, k + 1, res + below.0))
  {
    ScoreRunFromSound(d, v0, t0, p0, u, k + 1, below.1, res + below.0);
  }

  /** After a successful descent into the unvisited `k`-th successor of `u`, the search stands scored up to edge `k + 1`. */
  lemma ScoreBelowState(d: Dag, v0: seq<bool>, t0: set<UTXO>, p0: set<(nat, int)>, u: nat, k: nat, s: Search, res: int,
                        below: (int, Search))
    requires WellFormed(d) && |s.visited| == |d.adj| && |s.usedIndex| == |d.adj| && u < |d.adj| && k < |d.adj[u]|
    requires |v0| == |d.adj| && Scored(d, v0, t0, p0, u, k, k + 1, s.visited, s.temp, Pairs(s.usedIndex)) && !s.visited[d.adj[u][k]]
    requires res == NewlyMarkedSum(d.value, v0, s.visited)
    requires |below.1.visited| == |d.adj| && |below.1.usedIndex| == |d.adj| && ScoreRunEnd(d, s, d.adj[u][k], below) && below.0 >= 0
    ensures ScoredBelow(d, v0, t0, p0, u, k, res, below)
  {
    var v, after := d.adj[u][k], below.1;
    ScoreDescend(d, v0, t0, p0, u, k, s.visited, s.temp, Pairs(s.usedIndex), after.visited, after.temp, Pairs(after.usedIndex));
    MarkedAsGrows(s.visited, v0, {u} + ReachUpTo(d, d.isLeaf, u, k));
    MarkedAsGrows(after.visited, s.visited, Tree(d, v));
    NewlyMarkedSumAdditive(d.value, v0, s.visited, after.visited);
  }

  /**
   * The claim from `u`, step by step as the graph object runs it: marks `u`
   * used, claims the output positions of every edge leaving it, claims from
   * every successor not yet used, and lists `u` after them.
   */
  function GrabRun(d: Dag, g: Grabbing, u: nat): (out: Grabbing)
    requires WellFormed(d) && |g.used| == |d.adj| && |g.usedIndex| == |d.adj| && u < |d.adj|
    decreases d.rank[u], 1
    ensures |out.used| == |d.adj| && |out.usedIndex| == |d.adj|
  {
    var done := GrabRunFrom(d, g.(used := g.used[u := true]), u, 0);
    done.(result := done.result + [u])
  }

  /** The claim from `u`, from its `k`-th edge on. */
  function GrabRunFrom(d: Dag, g: Grabbing, u: nat, k: nat): (out: Grabbing)
    requires WellFormed(d) && |g.used| == |d.adj| && |g.usedIndex| == |d.adj| && u < |d.adj| && k <= |d.adj[u]|
    decreases d.rank[u], 0, |d.adj[u]| - k
    ensures |out.used| == |d.adj| && |out.usedIndex| == |d.adj|
  {
    if k == |d.adj[u]| then g
    else
      var v := d.adj[u][k];
      var crossed := g.(usedIndex := g.usedIndex[v := g.usedIndex[v] + LabelsOf(d.labels, u, v)]);
      if crossed.used[v] then GrabRunFrom(d, crossed, u, k + 1)
      else GrabRunFrom(d, GrabRun(d, crossed, v), u, k + 1)
  }

  /**
   * The claim from an unused `u`, over used marks closed below it and a list
   * of used nodes holding every used node not above `u`: it uses exactly what
   * `u` reaches, claims exactly the edges leaving the nodes it newly uses, and
   * lists those nodes once each, producers first, ending with `u`.
   */
  lemma {:induction false} GrabRunSound(d: Dag, g: Grabbing, u: nat)
    requires WellFormed(d) && |g.used| == |d.adj| && |g.usedIndex| == |d.adj| && u < |d.adj|
    requires !g.used[u] && ClosedBelow(d, NoMarks(|d.adj|), g.used, d.rank[u])
    requires forall i | 0 <= i < |g.result| :: g.result[i] < |d.adj| && g.used[g.result[i]]
    requires Distinct(g.result) && PostOrdered(d.adj, g.result)
    requires forall x | 0 <= x < |d.adj| && g.used[x] && d.rank[x] <= d.rank[u] :: x in g.result
    decreases d.rank[u], 1
    ensures var out := GrabRun(d, g, u);
      && Claimed(d, NoMarks(|d.adj|), g.used, Pairs(g.usedIndex), u, out.used, Pairs(out.usedIndex))
      && Extends(g.used, g.result, out.used, out.result)
      && |out.result| > |g.result| && out.result[|out.result| - 1] == u
      && (forall i | 0 <= i < |out.result| :: out.result[i] < |d.adj| && out.used[out.result[i]])
      && Distinct(out.result) && PostOrdered(d.adj, out.result)
  {
    var none := NoMarks(|d.adj|);
    var p0 := Pairs(g.usedIndex);
    var start := g.(used := g.used[u := true]);
    ClaimStart(d, none, g.used, p0, u);
    GrabRunFromSound(d, g.used, p0, start.used, g.result, u, 0, start);
    var done := GrabRunFrom(d, start, u, 0);
    assert GrabRun(d, g, u) == done.(result := done.result + [u]);
    ClaimDone(d, none, g.used, p0, u, done.used, Pairs(done.usedIndex));
    GrabFinish(d.adj, d.rank, g.used, g.result, done.used, done.result, u);
  }

  /** What the claim from `u`, started over marks `u0`, `p0` with list `result`, promises when it reaches `out`. */
  ghost predicate GrabEnd(d: Dag, u0: seq<bool>, p0: set<(nat, int)>, start: seq<bool>, result: seq<nat>, u: nat, out: Grabbing)
    requires WellFormed(d) && u < |d.adj|
  {
    && |out.used| == |d.adj|
    && Claiming(d, NoMarks(|d.adj|), u0, p0, u, |d.adj[u]|, |d.adj[u]|, out.used, Pairs(out.usedIndex))
    && GrabProgress(d.adj, d.rank, start, result, out.used, out.result, u, |d.adj[u]|)
  }

  /** The claim from `u`, resumed at its `k`-th edge, keeps the claim and the list in step to its end. */
  lemma {:induction false} GrabRunFromSound(d: Dag, u0: seq<bool>, p0: set<(nat, int)>, start: seq<bool>, result: seq<nat>, u: nat, k: nat, g: Grabbing)
    requires WellFormed(d) && |g.used| == |d.adj| && |g.usedIndex| == |d.adj| && u < |d.adj| && k <= |d.adj[u]|
    requires Claiming(d, NoMarks(|d.adj|), u0, p0, u, k, k, g.used, Pairs(g.usedIndex))
    requires GrabProgress(d.adj, d.rank, start, result, g.used, g.result, u, k)
    decreases d.rank[u], 0, |d.adj[u]| - k
    ensures GrabEnd(d, u0, p0, start, result, u, GrabRunFrom(d, g, u, k))
  {
    if k == |d.adj[u]| {
      assert GrabRunFrom(d, g, u, k) == g;
    } else {
      var v := d.adj[u][k];
      var pairs := Pairs(g.usedIndex);
      PairsAdd(g.usedIndex, v, LabelsOf(d.labels, u, v));
      var crossed := g.(usedIndex := g.usedIndex[v := g.usedIndex[v] + LabelsOf(d.labels, u, v)]);
      if g.used[v] {
        ClaimPast(d, NoMarks(|d.adj|), u0, p0, u, k, g.used, pairs);
        GrabSkip(d.adj, d.rank, start, result, g.used, g.result, u, k);
        GrabRunFromSound(d, u0, p0, start, result, u, k + 1, crossed);
        assert GrabRunFrom(d, g, u, k) == GrabRunFrom(d, crossed, u, k + 1);
      } else {
        GrabBelowSound(d, u0, p0, start, result, u, k, g);
        assert GrabRunFrom(d, g, u, k) == GrabRunFrom(d, GrabRun(d, crossed, v), u, k + 1);
      }
    }
  }

  /** The claim from `u` descending into its unused `k`-th successor. */
  lemma {:induction false} GrabBelowSound(d: Dag, u0: seq<bool>, p0: set<(nat, int)>, start: seq<bool>, result: seq<nat>, u: nat, k: nat, g: Grabbing)
    requires WellFormed(d) && |g.used| == |d.adj| && |g.usedIndex| == |d.adj| && u < |d.adj| && k < |d.adj[u]|
    requires Claiming(d, NoMarks(|d.adj|), u0, p0, u, k, k, g.used, Pairs(g.usedIndex))
    requires GrabProgress(d.adj, d.rank, start, result, g.used, g.result, u, k)
    requires !g.used[d.adj[u][k]]
    decreases d.rank[u], 0, |d.adj[u]| - k, 1
    ensures var v := d.adj[u][k];
      var crossed := g.(usedIndex := g.usedIndex[v := g.usedIndex[v] + LabelsOf(d.labels, u, v)]);
      GrabEnd(d, u0, p0, start, result, u, GrabRunFrom(d, GrabRun(d, crossed, v), u, k + 1))
  {
    var v := d.adj[u][k];
    var crossed := g.(usedIndex := g.usedIndex[v := g.usedIndex[v] + LabelsOf(d.labels, u, v)]);
    ClaimReady(d, NoMarks(|d.adj|), u0, p0, u, k, g.used, Pairs(g.usedIndex));
    GrabRunSound(d, crossed, v);
    var below := GrabRun(d, crossed, v);
    ClaimCrossed(d, u0, p0, u, k, g.used, g.usedIndex, below);
    GrabAdvance(d.adj, d.rank, start, result, g.used, g.result, below.used, below.result, u, k);
    GrabRunFromSound(d, u0, p0, start, result, u, k + 1, below);
  }

  /**
   * Crossing the `k`-th edge of `u` to an unused successor and claiming from
   * that successor, as `GrabRunSound` promises, moves the claim from `u` on to
   * its next edge.
   */
  lemma ClaimCrossed(d: Dag, u0: seq<bool>, p0: set<(nat, int)>, u: nat, k: nat, used: seq<bool>, usedIndex: seq<set<int>>, below: Grabbing)
    requires WellFormed(d) && |usedIndex| == |d.adj| && u < |d.adj| && k < |d.adj[u]|
    requires Claiming(d, NoMarks(|d.adj|), u0, p0, u, k, k, used, Pairs(usedIndex)) && !used[d.adj[u][k]]
    requires var v := d.adj[u][k];
      Claimed(d, NoMarks(|d.adj|), used, Pairs(usedIndex[v := usedIndex[v] + LabelsOf(d.labels, u, v)]), v, below.used, Pairs(below.usedIndex))
    ensures Claiming(d, NoMarks(|d.adj|), u0, p0, u, k + 1, k + 1, below.used, Pairs(below.usedIndex))
  {
    var v := d.adj[u][k];
    PairsAdd(usedIndex, v, LabelsOf(d.labels, u, v));
    ClaimBelow(d, NoMarks(|d.adj|), u0, p0, u, k, used, Pairs(usedIndex), below.used, Pairs(below.usedIndex));
  }

  /** One step of the value search from `u`: crossing its free `k`-th edge, then searching below it if unvisited. */
  lemma ScoreRunFromStep(d: Dag, s: Search, u: nat, k: nat, res: int)
    requires WellFormed(d) && |s.visited| == |d.adj| && |s.usedIndex| == |d.adj| && u < |d.adj| && k < |d.adj[u]|
    requires LabelsOf(d.labels, u, d.adj[u][k]) !! s.usedIndex[d.adj[u][k]]
    ensures var v := d.adj[u][k];
      var crossed := s.(usedIndex := s.usedIndex[v := s.usedIndex[v] + LabelsOf(d.labels, u, v)]);
      var below := ScoreRun(d, crossed, v);
      ScoreRunFrom(d, s, u, k, res)
        == if crossed.visited[v] then ScoreRunFrom(d, crossed, u, k + 1, res)
           else if below.0 < 0 then (-1, below.1) else ScoreRunFrom(d, below.1, u, k + 1, res + below.0)
  {
  }

  /** One step of the claim from `u`: claiming its `k`-th edge, then claiming from its successor if unused. */
  lemma GrabRunFromStep(d: Dag, g: Grabbing, u: nat, k: nat)
    requires WellFormed(d) && |g.used| == |d.adj| && |g.usedIndex| == |d.adj| && u < |d.adj| && k < |d.adj[u]|
    ensures var v := d.adj[u][k];
      var crossed := g.(usedIndex := g.usedIndex[v := g.usedIndex[v] + LabelsOf(d.labels, u, v)]);
      GrabRunFrom(d, g, u, k)
        == if crossed.used[v] then GrabRunFrom(d, crossed, u, k + 1) else GrabRunFrom(d, GrabRun(d, crossed, v), u, k + 1)
  {
  }

  /** A prefix one longer is the prefix with the next element appended. */
  lemma TakeSnoc<T>(s: seq<T>, i: nat)
    requires i < |s|
    ensures s[..i + 1] == s[..i] + [s[i]]
  {
  }

  /** The list holds exactly the used nodes, each once, producers before the nodes that spend them. */
  ghost predicate Listed(d: Dag, used: seq<bool>, result: seq<nat>)
    requires WellFormed(d)
  {
    && |used| == |d.adj|
    && (forall i | 0 <= i < |result| :: result[i] < |d.adj| && used[result[i]])
    && (forall x | 0 <= x < |d.adj| && used[x] :: x in result)
    && Distinct(result) && PostOrdered(d.adj, result)
  }

  /** A finished claim from `u`, over marks `u0` and pairs `p0`, is the specification's grab from `u`. */
  lemma ClaimedIsGrab(d: Dag, u0: seq<bool>, p0: set<(nat, int)>, u: nat, used: seq<bool>, pairs: set<(nat, int)>)
    requires WellFormed(d) && u < |d.adj| && |used| == |d.adj|
    requires Claimed(d, NoMarks(|d.adj|), u0, p0, u, used, pairs)
    ensures Claims(used, pairs) == Grab(d, Claims(u0, p0), u)
  {
    assert used == Mark(u0, All(d, u));
  }

  /**
   * Claiming from an unused root over closed, listed marks is the
   * specification's grab, and leaves the marks closed and listed.
   */
  lemma GrabRunIsGrab(d: Dag, g: Grabbing, r: nat)
    requires WellFormed(d) && |g.used| == |d.adj| && |g.usedIndex| == |d.adj| && r < |d.adj| && !g.used[r]
    requires Closed(d, NoMarks(|d.adj|), g.used) && Listed(d, g.used, g.result)
    ensures var out := GrabRun(d, g, r);
      && Claims(out.used, Pairs(out.usedIndex)) == Grab(d, Claims(g.used, Pairs(g.usedIndex)), r)
      && Closed(d, NoMarks(|d.adj|), out.used) && Listed(d, out.used, out.result)
  {
    var none := NoMarks(|d.adj|);
    GrabRunSound(d, g, r);
    var out := GrabRun(d, g, r);
    ClaimedIsGrab(d, g.used, Pairs(g.usedIndex), r, out.used, Pairs(out.usedIndex));
    ClosedAfter(d, none, g.used, out.used, All(d, r));
    InPrefix(g.result, out.result);
  }

  /** One root of the greedy claim: grabbed when unused and unclaimed, passed over otherwise. */
  lemma GreedyStep(d: Dag, roots: seq<nat>, i: nat, s: Claims)
    requires WellFormed(d) && |s.used| == |d.adj| && i < |roots| && forall j | 0 <= j < |roots| :: roots[j] < |d.adj|
    ensures Greedy(d, roots[i..], s).state
         == if !s.used[roots[i]] && Unclaimed(d, s.used, s.claimed, roots[i])
            then Greedy(d, roots[i + 1..], Grab(d, s, roots[i])).state
            else Greedy(d, roots[i + 1..], s).state
  {
    assert roots[i..][0] == roots[i];
    assert roots[i..][1..] == roots[i + 1..];
  }

  /** No node used, no output position claimed, nothing listed. */
  function NothingClaimed(n: nat): (g: Grabbing)
    ensures |g.used| == n && |g.usedIndex| == n && g.result == []
    ensures forall x | 0 <= x < n :: !g.used[x] && g.usedIndex[x] == {}
  {
    Grabbing(NoMarks(n), seq(n, _ => {}), [])
  }

  /**
   * The greedy loop as the graph object runs it: tries the roots in turn and
   * claims (`GrabRun`) from each one that is unused and whose unused part is
   * unclaimed, each claim appending its nodes to the list.
   */
  ghost function GreedyRun(d: Dag, roots: seq<nat>, g: Grabbing): (out: Grabbing)
    requires WellFormed(d) && |g.used| == |d.adj| && |g.usedIndex| == |d.adj|
    requires forall i | 0 <= i < |roots| :: roots[i] < |d.adj|
    ensures |out.used| == |d.adj| && |out.usedIndex| == |d.adj|
    decreases |roots|
  {
    if roots == [] then g
    else
      var r := roots[0];
      if !g.used[r] && Unclaimed(d, g.used, Pairs(g.usedIndex), r) then GreedyRun(d, roots[1..], GrabRun(d, g, r))
      else GreedyRun(d, roots[1..], g)
  }

  /** The claims from the roots of `taken`, one after another, each appending its nodes to the list. */
  function GrabEach(d: Dag, taken: seq<nat>, g: Grabbing): (out: Grabbing)
    requires WellFormed(d) && |g.used| == |d.adj| && |g.usedIndex| == |d.adj|
    requires forall i | 0 <= i < |taken| :: taken[i] < |d.adj|
    ensures |out.used| == |d.adj| && |out.usedIndex| == |d.adj|
    decreases |taken|
  {
    if taken == [] then g else GrabEach(d, taken[1..], GrabRun(d, g, taken[0]))
  }

  /** The selector's run over `d`: the greedy loop over the roots in order, from nothing claimed. */
  ghost function SelectionRun(d: Dag): Grabbing
    requires WellFormed(d)
  {
    GreedyRun(d, Order(d), NothingClaimed(|d.adj|))
  }

  /**
   * Over closed, listed marks, the greedy loop is the claim from each root the
   * greedy selection takes, in the order taken, and its marks are the
   * selection's claims.
   */
  lemma {:induction false} GreedyRunTakes(d: Dag, roots: seq<nat>, g: Grabbing)
    requires WellFormed(d) && |g.used| == |d.adj| && |g.usedIndex| == |d.adj|
    requires forall i | 0 <= i < |roots| :: roots[i] < |d.adj|
    requires Closed(d, NoMarks(|d.adj|), g.used) && Listed(d, g.used, g.result)
    ensures var p := Greedy(d, roots, Claims(g.used, Pairs(g.usedIndex)));
            && GreedyRun(d, roots, g) == GrabEach(d, p.taken, g)
            && Claims(GreedyRun(d, roots, g).used, Pairs(GreedyRun(d, roots, g).usedIndex)) == p.state
    decreases |roots|
  {
    if roots != [] {
      var r := roots[0];
      if !g.used[r] && Unclaimed(d, g.used, Pairs(g.usedIndex), r) {
        GrabRunIsGrab(d, g, r);
        GreedyRunTakes(d, roots[1..], GrabRun(d, g, r));
      } else {
        GreedyRunTakes(d, roots[1..], g);
      }
    }
  }

  /**
   * The selector's run is the claim from each root the selection takes, in the
   * order taken, each appending its newly used nodes to the list; its marks
   * are the selection's claims.
   */
  lemma SelectionRunTakes(d: Dag)
    requires WellFormed(d)
    ensures SelectionRun(d) == GrabEach(d, Selection(d).taken, NothingClaimed(|d.adj|))
    ensures Claims(SelectionRun(d).used, Pairs(SelectionRun(d).usedIndex)) == Selection(d).state
  {
    var none := NothingClaimed(|d.adj|);
    PairsNone(|d.adj|);
    assert none.usedIndex == seq(|d.adj|, _ => {});
    GreedyRunTakes(d, Order(d), none);
  }

  /** The greedy loop over the ordered roots is the selection, and the selector's run. */
  lemma SelectionOf(d: Dag, sorted: seq<nat>)
    requires WellFormed(d) && sorted == Order(d)
    ensures Greedy(d, sorted, Claims(NoMarks(|d.adj|), {})).state == Selection(d).state
    ensures GreedyRun(d, sorted, NothingClaimed(|d.adj|)) == SelectionRun(d)
  {
  }

  /**
   * The greedy claim over `roots` is on course after its first `i` roots: the
   * marks are closed and listed, the greedy claim over the remaining roots
   * from them ends in `goal`, and the loop over the remaining roots from them
   * ends in `run`.
   */
  ghost predicate OnCourse(d: Dag, roots: seq<nat>, i: nat, g: Grabbing, goal: Claims, run: Grabbing)
    requires WellFormed(d)
  {
    && |g.used| == |d.adj| && |g.usedIndex| == |d.adj| && i <= |roots|
    && (forall j | 0 <= j < |roots| :: roots[j] < |d.adj|)
    && Closed(d, NoMarks(|d.adj|), g.used) && Listed(d, g.used, g.result)
    && Greedy(d, roots[i..], Claims(g.used, Pairs(g.usedIndex))).state == goal
    && GreedyRun(d, roots[i..], g) == run
  }

  /** One root of the loop: claimed from when unused and unclaimed, passed over otherwise. */
  lemma GreedyRunStep(d: Dag, roots: seq<nat>, i: nat, g: Grabbing)
    requires WellFormed(d) && |g.used| == |d.adj| && |g.usedIndex| == |d.adj|
    requires i < |roots| && forall j | 0 <= j < |roots| :: roots[j] < |d.adj|
    ensures GreedyRun(d, roots[i..], g)
         == if !g.used[roots[i]] && Unclaimed(d, g.used, Pairs(g.usedIndex), roots[i])
            then GreedyRun(d, roots[i + 1..], GrabRun(d, g, roots[i]))
            else GreedyRun(d, roots[i + 1..], g)
  {
    assert roots[i..][0] == roots[i];
    assert roots[i..][1..] == roots[i + 1..];
  }

  /** A root that is unused and unclaimed: the claim from it keeps the greedy claim on course. */
  lemma GreedyGrabs(d: Dag, roots: seq<nat>, i: nat, g: Grabbing, goal: Claims, run: Grabbing)
    requires WellFormed(d) && OnCourse(d, roots, i, g, goal, run) && i < |roots|
    requires !g.used[roots[i]] && Unclaimed(d, g.used, Pairs(g.usedIndex), roots[i])
    ensures OnCourse(d, roots, i + 1, GrabRun(d, g, roots[i]), goal, run)
  {
    GreedyRunStep(d, roots, i, g);
    GreedyStep(d, roots, i, Claims(g.used, Pairs(g.usedIndex)));
    GrabRunIsGrab(d, g, roots[i]);
  }

  /** A root that is used or claimed: passing over it keeps the greedy claim on course. */
  lemma GreedyPasses(d: Dag, roots: seq<nat>, i: nat, g: Grabbing, goal: Claims, run: Grabbing)
    requires WellFormed(d) && OnCourse(d, roots, i, g, goal, run) && i < |roots|
    requires g.used[roots[i]] || !Unclaimed(d, g.used, Pairs(g.usedIndex), roots[i])
    ensures OnCourse(d, roots, i + 1, g, goal, run)
  {
    GreedyRunStep(d, roots, i, g);
    GreedyStep(d, roots, i, Claims(g.used, Pairs(g.usedIndex)));
  }

  /** With no node of positive tree value there is no root, and the selection claims nothing. */
  lemma SelectionEmpty(d: Dag, used: seq<bool>, result: seq<nat>)
    requires WellFormed(d) && used == Selection(d).state.used && Listed(d, used, result)
    ensures (forall i | 0 <= i < |d.adj| :: TreeValue(d, i) <= 0) ==> result == []
  {
    if forall i | 0 <= i < |d.adj| :: TreeValue(d, i) <= 0 {
      PositiveRootsNone(TreeValues(d));
      assert Order(d) == [];
      assert forall x | 0 <= x < |used| :: !used[x];
      if result != [] {
        HeadMember(result);
        assert false;
      }
    }
  }

  /** A non-empty sequence holds its first element. */
  lemma HeadMember(s: seq<nat>)
    ensures |s| > 0 ==> s[0] in s
  {
  }

  // ---------------------------------------------------------------------------
  // The graph object
  // ---------------------------------------------------------------------------

  class Graph {
    const n: nat
    ghost const rank: seq<nat>
    var adj: seq<seq<nat>>
    var isLeaf: seq<bool>
    var value: seq<int>
    var visited: seq<bool>
    var used: seq<bool>
    var tempUsedInputs: set<UTXO>
    var usedInputs: seq<set<UTXO>>
    var edgeIndexes: map<(nat, nat), set<int>>
    var usedIndex: seq<set<int>>

    /** The graph the searches walk, as a value. */
    ghost function Shape(): Dag
      reads this`adj, this`isLeaf, this`value, this`usedInputs, this`edgeIndexes
    {
      Dag(adj, rank, isLeaf, value, usedInputs, edgeIndexes)
    }

    /**
     * Every array of the graph is sized to it, every edge stays inside it,
     * descends in rank and has its labels recorded, and no fee is negative.
     */
    ghost predicate Shaped()
      reads this`adj, this`isLeaf, this`value, this`usedInputs, this`edgeIndexes
    {
      && |rank| == n && |adj| == n && |isLeaf| == n && |value| == n && |usedInputs| == n
      && WellFormed(Shape())
      && (forall u, k | 0 <= u < n && 0 <= k < |adj[u]| :: (u, adj[u][k]) in edgeIndexes)
      && (forall i | 0 <= i < n :: value[i] >= 0)
    }

    /** A shaped graph whose search marks and claims are sized to it. */
    ghost predicate Valid()
      reads this`adj, this`isLeaf, this`value, this`usedInputs, this`edgeIndexes, this`visited, this`used, this`usedIndex
    {
      Shaped() && |visited| == n && |used| == n && |usedIndex| == n
    }

    /** A graph of `n` isolated nodes, none a leaf, every fee zero, nothing visited, used or claimed. */
    constructor (n: nat, ghost rank: seq<nat>)
      requires |rank| == n
      ensures Valid()
      ensures this.n == n && this.rank == rank && edgeIndexes == map[] && tempUsedInputs == {}
      ensures forall i | 0 <= i < n :: adj[i] == [] && !isLeaf[i] && value[i] == 0
      ensures forall i | 0 <= i < n :: !visited[i] && !used[i] && usedInputs[i] == {} && usedIndex[i] == {}
    {
      this.n := n;
      this.rank := rank;
      var falses := seq(n, i => false);
      adj := seq(n, i => []);
      isLeaf := falses;
      value := seq(n, i => 0);
      visited := falses;
      used := falses;
      usedInputs := seq(n, i => {});
      tempUsedInputs := {};
      edgeIndexes := map[];
      usedIndex := seq(n, i => {});
    }

    /** Records that node `u` spends the confirmed output `utxo`. */
    method AddUsedInput(u: nat, utxo: UTXO)
      requires Valid() && u < n
      modifies this`usedInputs
      ensures Valid()
      ensures usedInputs == old(usedInputs)[u := old(usedInputs)[u] + {utxo}]
    {
      usedInputs := usedInputs[u := usedInputs[u] + {utxo}];
    }

    /** Adds the edge `u -> v` labelled with the output positions `indexes` of `v` that `u` spends. */
    method AddEdge(u: nat, v: nat, indexes: seq<int>)
      requires Valid() && u < n && v < n && rank[v] < rank[u]
      modifies this`adj, this`edgeIndexes
      ensures Valid()
      ensures adj == old(adj)[u := old(adj)[u] + [v]]
      ensures edgeIndexes == old(edgeIndexes)[(u, v) := LabelsOf(old(edgeIndexes), u, v) + set i | i in indexes]
    {
      adj := adj[u := adj[u] + [v]];
      var labels := if (u, v) in edgeIndexes then edgeIndexes[(u, v)] else {};
      edgeIndexes := edgeIndexes[(u, v) := labels + set i | i in indexes];
    }

    /** Sets node `i`'s fee; fees of candidates that passed the overlay check are never negative. */
    method SetValue(i: nat, v: int)
      requires Valid() && i < n && v >= 0
      modifies this`value
      ensures Valid()
      ensures value == old(value)[i := v]
    {
      value := value[i := v];
    }

    /** Marks node `u` as valid against the confirmed outputs alone. */
    method SetLeaf(u: nat)
      requires Valid() && u < n
      modifies this`isLeaf
      ensures Valid()
      ensures isLeaf == old(isLeaf)[u := true]
    {
      isLeaf := isLeaf[u := true];
    }

    /**
     * Depth-first value of the tree below `u`, from the current marks: the
     * value search `ScoreRun` on this graph, leaving its marks in the fields.
     */
    method DfsGetValue(u: nat) returns (r: int)
      requires Valid() && u < n
      modifies this`visited, this`tempUsedInputs, this`usedIndex
      decreases rank[u]
      ensures Valid()
      ensures (r, Search(visited, tempUsedInputs, usedIndex))
           == ScoreRun(Shape(), Search(old(visited), old(tempUsedInputs), old(usedIndex)), u)
    {
      ghost var d := Shape();
      ghost var whole := ScoreRun(d, Search(visited, tempUsedInputs, usedIndex), u);
      if !(usedInputs[u] !! tempUsedInputs) {
        return -1;
      }
      tempUsedInputs := tempUsedInputs + usedInputs[u];
      visited := visited[u := true];
      if isLeaf[u] {
        return value[u];
      }
      var res := value[u];
      var k := 0;
      while k < |adj[u]|
        invariant Valid() && k <= |adj[u]| && Shape() == d
        invariant ScoreRunFrom(d, Search(visited, tempUsedInputs, usedIndex), u, k, res) == whole
      {
        ghost var s := Search(visited, tempUsedInputs, usedIndex);
        var v := adj[u][k];
        var labels := edgeIndexes[(u, v)];
        if !(labels !! usedIndex[v]) {
          return -1;
        }
        ScoreRunFromStep(d, s, u, k, res);
        usedIndex := usedIndex[v := usedIndex[v] + labels];
        if !visited[v] {
          ghost var crossed := Search(visited, tempUsedInputs, usedIndex);
          var cur := DfsGetValue(v);
          assert (cur, Search(visited, tempUsedInputs, usedIndex)) == ScoreRun(d, crossed, v);
          if cur < 0 {
            return -1;
          }
          res := res + cur;
        }
        k := k + 1;
      }
      return res;
    }

    /** The value of the tree rooted at `root`, searched from nothing visited and nothing claimed. */
    method GetTreeValue(root: nat) returns (r: int)
      requires Valid() && root < n
      modifies this`visited, this`tempUsedInputs, this`usedIndex
      ensures Valid() && Shape() == old(Shape())
      ensures r == TreeValue(Shape(), root)
    {
      ghost var d := Shape();
      visited := NoMarks(n);
      tempUsedInputs := {};
      usedIndex := seq(n, _ => {});
      ghost var s := Search(visited, tempUsedInputs, usedIndex);
      r := DfsGetValue(root);
      PairsNone(n);
      ScoreRunSound(d, s, root);
      ScoreFromNothing(d, root, visited, tempUsedInputs, Pairs(usedIndex), r);
    }

    /** Scores every node as a root; the roots are the nodes of positive tree value, in ascending index order. */
    method ScoreRoots() returns (rootList: seq<nat>, tv: seq<int>)
      requires Valid()
      modifies this`visited, this`tempUsedInputs, this`usedIndex
      ensures Valid()
      ensures tv == TreeValues(Shape())
      ensures rootList == PositiveRoots(tv)
    {
      ghost var d := Shape();
      ghost var all := TreeValues(d);
      rootList := [];
      tv := [];
      var i: nat := 0;
      while i < n
        invariant Valid() && i <= n && Shape() == d
        invariant tv == all[..i]
        invariant rootList == PositiveRoots(tv)
      {
        var t := GetTreeValue(i);
        assert t == all[i];
        PositiveRootsSnoc(tv, t);
        TakeSnoc(all, i);
        tv := tv + [t];
        if t > 0 {
          rootList := rootList + [i];
        }
        i := i + 1;
      }
      assert all[..n] == all;
    }

    /**
     * Whether the unused part below the unused node `u` is unclaimed: no edge
     * leaving it into a used node spends a label already claimed there.
     */
    function CheckUnused(u: nat): (ok: bool)
      requires Valid() && u < n && !used[u]
      reads this
      decreases rank[u], 1
      ensures ok <==> Unclaimed(Shape(), used, Pairs(usedIndex), u)
    {
      UnclaimedEdges(Shape(), used, Pairs(usedIndex), u);
      CheckUnusedFrom(u, 0)
    }

    /** The check from `u`, edge by edge from the `k`-th. */
    function CheckUnusedFrom(u: nat, k: nat): (ok: bool)
      requires Valid() && u < n && k <= |adj[u]|
      reads this
      decreases rank[u], 0, |adj[u]| - k
      ensures ok <==> UnclaimedFrom(Shape(), used, Pairs(usedIndex), u, k)
    {
      if k == |adj[u]| then true
      else
        var v := adj[u][k];
        PairsCheck(usedIndex, v, edgeIndexes[(u, v)]);
        if used[v] then (edgeIndexes[(u, v)] !! usedIndex[v]) && CheckUnusedFrom(u, k + 1)
        else CheckUnused(v) && CheckUnusedFrom(u, k + 1)
    }

    /**
     * Claims everything `u` reaches, from the current marks: the claim
     * `GrabRun` on this graph, leaving its marks in the fields and its list of
     * newly used nodes appended to `result`.
     */
    method DfsGrab(u: nat, result: seq<nat>) returns (result': seq<nat>)
      requires Valid() && u < n
      modifies this`used, this`usedIndex
      decreases rank[u]
      ensures Valid()
      ensures Grabbing(used, usedIndex, result') == GrabRun(Shape(), Grabbing(old(used), old(usedIndex), result), u)
    {
      ghost var d := Shape();
      ghost var whole := GrabRunFrom(d, Grabbing(used[u := true], usedIndex, result), u, 0);
      used := used[u := true];
      result' := result;
      var k := 0;
      while k < |adj[u]|
        invariant Valid() && k <= |adj[u]|
        invariant GrabRunFrom(d, Grabbing(used, usedIndex, result'), u, k) == whole
      {
        ghost var g := Grabbing(used, usedIndex, result');
        var v := adj[u][k];
        GrabRunFromStep(d, g, u, k);
        usedIndex := usedIndex[v := usedIndex[v] + edgeIndexes[(u, v)]];
        if !used[v] {
          result' := DfsGrab(v, result');
        }
        k := k + 1;
      }
      result' := result' + [u];
    }

    /**
     * Tries the roots in order, claiming from each one that is unused and
     * whose unused part is unclaimed: the greedy claim `Greedy` over `roots`,
     * from nothing used and nothing claimed, run as the loop `GreedyRun`. The
     * list holds the used nodes, each once, producers first.
     */
    method ClaimRoots(roots: seq<nat>) returns (result: seq<nat>)
      requires Valid() && forall i | 0 <= i < |roots| :: roots[i] < n
      requires forall i | 0 <= i < n :: !used[i] && usedIndex[i] == {}
      modifies this`used, this`usedIndex
      ensures Valid() && Shape() == old(Shape())
      ensures Claims(used, Pairs(usedIndex)) == Greedy(Shape(), roots, Claims(NoMarks(n), {})).state
      ensures Listed(Shape(), used, result)
      ensures Grabbing(used, usedIndex, result) == GreedyRun(Shape(), roots, NothingClaimed(n))
    {
      ghost var d := Shape();
      ghost var none := NoMarks(n);
      assert used == none;
      assert usedIndex == seq(n, _ => {});
      PairsNone(n);
      ghost var goal := Greedy(d, roots, Claims(used, Pairs(usedIndex))).state;
      ghost var run := GreedyRun(d, roots, NothingClaimed(n));
      result := [];
      ghost var g := NothingClaimed(n);
      assert Grabbing(used, usedIndex, result) == g;
      assert roots[0..] == roots;
      var i := 0;
      while i < |roots|
        invariant Valid() && Shape() == d
        invariant g == Grabbing(used, usedIndex, result)
        invariant OnCourse(d, roots, i, g, goal, run)
      {
        var r := roots[i];
        if !used[r] && CheckUnused(r) {
          result := DfsGrab(r, result);
          GreedyGrabs(d, roots, i, g, goal, run);
          g := GrabRun(d, g, r);
        } else {
          GreedyPasses(d, roots, i, g, goal, run);
        }
        i := i + 1;
      }
      assert roots[|roots|..] == [];
    }

    /**
     * The selector: scores every node as a root, sorts the roots of positive
     * value by descending value, clears the claimed output positions and
     * claims greedily. The marks and the list it leaves are the selector's
     * run `SelectionRun`: the marks are the specification's selection, and the
     * list holds the claimed nodes, producers first, tree by tree in the order
     * the roots were taken; with no root of positive value it claims nothing.
     */
    method GetMaxDisjointTrees() returns (result: seq<nat>)
      requires Valid() && forall i | 0 <= i < n :: !used[i]
      modifies this`visited, this`tempUsedInputs, this`usedIndex, this`used
      ensures Valid() && Shape() == old(Shape())
      ensures Claims(used, Pairs(usedIndex)) == Selection(Shape()).state
      ensures Listed(Shape(), used, result)
      ensures (forall i | 0 <= i < n :: TreeValue(Shape(), i) <= 0) ==> result == []
      ensures Grabbing(used, usedIndex, result) == SelectionRun(Shape())
    {
      ghost var d := Shape();
      var roots, treeValue := ScoreRoots();
      assert Shape() == d;
      var sorted := SortByTreeValue(roots, treeValue);
      assert sorted == Order(d);
      usedIndex := seq(n, _ => {});
      result := ClaimRoots(sorted);
      SelectionOf(d, sorted);
      SelectionEmpty(d, used, result);
    }
  }
}
