/**
 * What the fee-maximising selector computes, stated on values. The dependency
 * graph is a `Dag`; from it follow the nodes a search reaches from a node, the
 * claims a tree makes (confirmed outputs, and output positions of the
 * producers it spends from), the value of each tree, the order in which roots
 * are tried, and the greedy claim that picks the trees.
 */
module FeeTrees {
  import opened Ledger

  // ---------------------------------------------------------------------------
  // Sums over marked nodes
  // ---------------------------------------------------------------------------

  /** `after` marks every node `before` marks. */
  predicate Grows(before: seq<bool>, after: seq<bool>)
  {
    |before| == |after| && forall i | 0 <= i < |before| :: before[i] ==> after[i]
  }

  /** Sum of `value` over the nodes `after` marks and `before` does not. */
  function NewlyMarkedSum(value: seq<int>, before: seq<bool>, after: seq<bool>): int
    requires |before| == |value| && |after| == |value|
  {
    if value == [] then 0
    else
      var n := |value| - 1;
      NewlyMarkedSum(value[..n], before[..n], after[..n]) + (if after[n] && !before[n] then value[n] else 0)
  }

  /** Sum of all values. */
  function Total(value: seq<int>): int
  {
    if value == [] then 0 else Total(value[..|value| - 1]) + value[|value| - 1]
  }

  lemma {:induction false} NewlyMarkedSumAdditive(value: seq<int>, a: seq<bool>, b: seq<bool>, c: seq<bool>)
    requires |a| == |value| && Grows(a, b) && Grows(b, c)
    ensures NewlyMarkedSum(value, a, b) + NewlyMarkedSum(value, b, c) == NewlyMarkedSum(value, a, c)
  {
    if value != [] {
      var n := |value| - 1;
      NewlyMarkedSumAdditive(value[..n], a[..n], b[..n], c[..n]);
    }
  }

  /** Marking one unmarked node adds exactly its value. */
  lemma {:induction false} NewlyMarkedSumOne(value: seq<int>, a: seq<bool>, u: nat)
    requires |a| == |value| && u < |a| && !a[u]
    ensures NewlyMarkedSum(value, a, a[u := true]) == value[u]
  {
    var n := |value| - 1;
    if u == n {
      NewlyMarkedSumNone(value[..n], a[..n]);
      assert a[u := true][..n] == a[..n];
    } else {
      NewlyMarkedSumOne(value[..n], a[..n], u);
      assert a[u := true][..n] == a[..n][u := true];
    }
  }

  lemma {:induction false} NewlyMarkedSumNone(value: seq<int>, a: seq<bool>)
    requires |a| == |value|
    ensures NewlyMarkedSum(value, a, a) == 0
  {
    if value != [] {
      NewlyMarkedSumNone(value[..|value| - 1], a[..|value| - 1]);
    }
  }

  /** Fees that are all zero total zero. */
  lemma {:induction false} TotalOfZeros(value: seq<int>)
    requires forall i | 0 <= i < |value| :: value[i] == 0
    ensures Total(value) == 0
  {
    if value != [] {
      TotalOfZeros(value[..|value| - 1]);
    }
  }

  /** With non-negative values, a newly marked node's value bounds the sum below and the total bounds it above. */
  lemma {:induction false} NewlyMarkedSumBounds(value: seq<int>, a: seq<bool>, b: seq<bool>, u: nat)
    requires |a| == |value| && Grows(a, b)
    requires forall i | 0 <= i < |value| :: value[i] >= 0
    requires u < |value| && b[u] && !a[u]
    ensures value[u] <= NewlyMarkedSum(value, a, b) <= Total(value)
  {
    var n := |value| - 1;
    if u == n {
      NewlyMarkedSumNonNegative(value[..n], a[..n], b[..n]);
    } else {
      NewlyMarkedSumBounds(value[..n], a[..n], b[..n], u);
    }
  }

  lemma {:induction false} NewlyMarkedSumNonNegative(value: seq<int>, a: seq<bool>, b: seq<bool>)
    requires |a| == |value| && |b| == |value|
    requires forall i | 0 <= i < |value| :: value[i] >= 0
    ensures 0 <= NewlyMarkedSum(value, a, b) <= Total(value)
  {
    if value != [] {
      var n := |value| - 1;
      NewlyMarkedSumNonNegative(value[..n], a[..n], b[..n]);
    }
  }

  // ---------------------------------------------------------------------------
  // Ordering roots: a stable sort by descending tree value
  // ---------------------------------------------------------------------------

  /** The nodes of positive score, in ascending index order. */
  function PositiveRoots(tv: seq<int>): (r: seq<nat>)
    ensures forall a | 0 <= a < |r| :: r[a] < |tv| && tv[r[a]] > 0
  {
    if tv == [] then []
    else
      var n := |tv| - 1;
      PositiveRoots(tv[..n]) + (if tv[n] > 0 then [n] else [])
  }

  /** Without a positive score there are no roots. */
  lemma {:induction false} PositiveRootsNone(tv: seq<int>)
    requires forall i | 0 <= i < |tv| :: tv[i] <= 0
    ensures PositiveRoots(tv) == []
  {
    if tv != [] {
      PositiveRootsNone(tv[..|tv| - 1]);
    }
  }

  /** The roots are exactly the nodes of positive score, each once, in ascending order. */
  lemma {:induction false} PositiveRootsCorrect(tv: seq<int>)
    ensures forall x :: x in PositiveRoots(tv) <==> 0 <= x < |tv| && tv[x] > 0
    ensures forall a, b | 0 <= a < b < |PositiveRoots(tv)| :: PositiveRoots(tv)[a] < PositiveRoots(tv)[b]
  {
    if tv != [] {
      var n := |tv| - 1;
      PositiveRootsCorrect(tv[..n]);
    }
  }

  /** Scoring one more node adds it to the roots exactly when its score is positive. */
  lemma PositiveRootsSnoc(tv: seq<int>, t: int)
    ensures PositiveRoots(tv + [t]) == PositiveRoots(tv) + (if t > 0 then [|tv|] else [])
  {
    SnocInit(tv, t);
  }

  /** Node `a` sorts before node `b`: larger tree value first, the smaller index among equals. */
  predicate Ahead(a: nat, b: nat, treeValue: seq<int>)
    requires a < |treeValue| && b < |treeValue|
  {
    treeValue[a] > treeValue[b] || (treeValue[a] == treeValue[b] && a < b)
  }

  predicate RootOrder(roots: seq<nat>, treeValue: seq<int>)
  {
    && (forall i | 0 <= i < |roots| :: roots[i] < |treeValue|)
    && (forall i, j | 0 <= i < j < |roots| :: Ahead(roots[i], roots[j], treeValue))
  }

  /** Inserts `x` after every element of value at least its own (stable insertion). */
  function InsertByValue(sorted: seq<nat>, x: nat, treeValue: seq<int>): (r: seq<nat>)
    requires x < |treeValue|
    requires forall i | 0 <= i < |sorted| :: sorted[i] < |treeValue|
    ensures multiset(r) == multiset(sorted) + multiset{x}
    ensures forall i | 0 <= i < |r| :: r[i] < |treeValue|
  {
    if sorted == [] then [x]
    else if treeValue[x] > treeValue[sorted[0]] then [x] + sorted
    else
      assert sorted == [sorted[0]] + sorted[1..];
      [sorted[0]] + InsertByValue(sorted[1..], x, treeValue)
  }

  /** The list sort with comparator "larger tree value first": a stable insertion sort. */
  function SortByTreeValue(roots: seq<nat>, treeValue: seq<int>): (r: seq<nat>)
    requires forall i | 0 <= i < |roots| :: roots[i] < |treeValue|
    ensures multiset(r) == multiset(roots)
    ensures forall i | 0 <= i < |r| :: r[i] < |treeValue|
  {
    if roots == [] then []
    else
      var n := |roots| - 1;
      assert roots == roots[..n] + [roots[n]];
      InsertByValue(SortByTreeValue(roots[..n], treeValue), roots[n], treeValue)
  }

  /** Two sequences with the same multiset have the same members. */
  lemma SameMembers<T>(a: seq<T>, b: seq<T>)
    requires multiset(a) == multiset(b)
    ensures forall x :: x in a <==> x in b
  {
    forall x
      ensures x in a <==> x in b
    {
      assert x in a <==> x in multiset(a);
      assert x in b <==> x in multiset(b);
    }
  }

  lemma ConsOrder(h: nat, rest: seq<nat>, treeValue: seq<int>)
    requires h < |treeValue| && RootOrder(rest, treeValue)
    requires forall j | 0 <= j < |rest| :: Ahead(h, rest[j], treeValue)
    ensures RootOrder([h] + rest, treeValue)
  {
    var r := [h] + rest;
    forall i, j | 0 <= i < j < |r|
      ensures Ahead(r[i], r[j], treeValue)
    {
      assert r[j] == rest[j - 1];
      if i > 0 {
        assert r[i] == rest[i - 1];
      }
    }
  }

  lemma {:induction false} InsertByValueCorrect(sorted: seq<nat>, x: nat, treeValue: seq<int>)
    requires x < |treeValue| && RootOrder(sorted, treeValue)
    requires forall i | 0 <= i < |sorted| :: sorted[i] < x
    ensures RootOrder(InsertByValue(sorted, x, treeValue), treeValue)
  {
    if sorted == [] {
    } else if treeValue[x] > treeValue[sorted[0]] {
      forall j | 0 <= j < |sorted|
        ensures Ahead(x, sorted[j], treeValue)
      {
        if j > 0 {
          assert Ahead(sorted[0], sorted[j], treeValue);
        }
      }
      ConsOrder(x, sorted, treeValue);
    } else {
      var rest := InsertByValue(sorted[1..], x, treeValue);
      InsertByValueCorrect(sorted[1..], x, treeValue);
      forall j | 0 <= j < |rest|
        ensures Ahead(sorted[0], rest[j], treeValue)
      {
        var e := rest[j];
        assert e in multiset(sorted[1..]) + multiset{x};
        if e != x {
          assert e in sorted[1..];
          var m :| 0 <= m < |sorted| - 1 && sorted[1..][m] == e;
          assert Ahead(sorted[0], sorted[m + 1], treeValue);
        }
      }
      ConsOrder(sorted[0], rest, treeValue);
    }
  }

  /**
   * Sorting roots collected in ascending index order yields them by descending
   * tree value, ties in ascending index, and loses or adds none.
   */
  lemma {:induction false} SortByTreeValueCorrect(roots: seq<nat>, treeValue: seq<int>)
    requires forall i | 0 <= i < |roots| :: roots[i] < |treeValue|
    requires forall i, j | 0 <= i < j < |roots| :: roots[i] < roots[j]
    ensures RootOrder(SortByTreeValue(roots, treeValue), treeValue)
    ensures multiset(SortByTreeValue(roots, treeValue)) == multiset(roots)
  {
    if roots != [] {
      var n := |roots| - 1;
      var pre := SortByTreeValue(roots[..n], treeValue);
      SortByTreeValueCorrect(roots[..n], treeValue);
      forall i | 0 <= i < |pre|
        ensures pre[i] < roots[n]
      {
        assert pre[i] in multiset(roots[..n]);
        var m :| 0 <= m < n && roots[..n][m] == pre[i];
      }
      InsertByValueCorrect(pre, roots[n], treeValue);
    }
  }

  // ---------------------------------------------------------------------------
  // The graph as a value
  // ---------------------------------------------------------------------------

  /**
   * Node `x` has an edge `adj[x][k]` to each producer it spends from; the
   * labels of edge `x -> y` are the output positions of `y` that `x` spends.
   * `usedInputs[x]` are the confirmed outputs `x` spends, `isLeaf[x]` says
   * whether `x` is valid against the confirmed outputs alone, `value[x]` is
   * its fee. Every edge descends in `rank`.
   */
  datatype Dag = Dag(adj: seq<seq<nat>>, rank: seq<nat>, isLeaf: seq<bool>, value: seq<int>,
                     usedInputs: seq<set<UTXO>>, labels: map<(nat, nat), set<int>>)

  predicate WellFormed(d: Dag)
  {
    && |d.rank| == |d.adj| && |d.isLeaf| == |d.adj| && |d.value| == |d.adj| && |d.usedInputs| == |d.adj|
    && forall x, k | 0 <= x < |d.adj| && 0 <= k < |d.adj[x]| ::
         d.adj[x][k] < |d.adj| && d.rank[d.adj[x][k]] < d.rank[x]
  }

  /** The labels recorded on edge `u -> v`, none when the edge is absent. */
  function LabelsOf(labels: map<(nat, nat), set<int>>, u: nat, v: nat): set<int>
  {
    if (u, v) in labels then labels[(u, v)] else {}
  }

  /**
   * The nodes a depth-first search from `u` reaches when it does not descend
   * below the nodes `stop` marks: `u` itself, and unless `u` is marked,
   * everything reached from its successors. All lie below `u` in rank.
   */
  function Reach(d: Dag, stop: seq<bool>, u: nat): (r: set<nat>)
    requires WellFormed(d) && |stop| == |d.adj| && u < |d.adj|
    decreases d.rank[u], 1
    ensures u in r
    ensures forall x | x in r :: x < |d.adj| && (x == u || d.rank[x] < d.rank[u])
  {
    {u} + (if stop[u] then {} else ReachUpTo(d, stop, u, |d.adj[u]|))
  }

  /** What the search reaches from the first `k` successors of `u`; all of it lies strictly below `u` in rank. */
  function ReachUpTo(d: Dag, stop: seq<bool>, u: nat, k: nat): (r: set<nat>)
    requires WellFormed(d) && |stop| == |d.adj| && u < |d.adj| && k <= |d.adj[u]|
    decreases d.rank[u], 0, k
    ensures forall x | x in r :: x < |d.adj| && d.rank[x] < d.rank[u]
  {
    if k == 0 then {} else ReachUpTo(d, stop, u, k - 1) + Reach(d, stop, d.adj[u][k - 1])
  }

  /** No node marked. */
  function NoMarks(n: nat): (m: seq<bool>)
    ensures |m| == n && forall x | 0 <= x < n :: !m[x]
  {
    seq(n, _ => false)
  }

  /** The nodes `marks` marks. */
  function Marked(marks: seq<bool>): set<nat>
  {
    set x: nat | x < |marks| && marks[x]
  }

  /** `marks` with the nodes of `s` marked as well. */
  function Mark(marks: seq<bool>, s: set<nat>): (m: seq<bool>)
    ensures |m| == |marks| && forall x | 0 <= x < |marks| :: m[x] == (marks[x] || x in s)
  {
    seq(|marks|, x requires 0 <= x < |marks| => marks[x] || x in s)
  }

  /** Marks `after` are marks `before` with exactly the nodes of `s` added. */
  predicate MarkedAs(after: seq<bool>, before: seq<bool>, s: set<nat>)
  {
    |after| == |before| && forall x: nat | x < |before| :: after[x] == (before[x] || x in s)
  }

  /** Marking more nodes only adds marks. */
  lemma MarkedAsGrows(after: seq<bool>, before: seq<bool>, s: set<nat>)
    requires MarkedAs(after, before, s)
    ensures Grows(before, after)
  {
  }

  /** The nodes `after` marks and `before` does not. */
  function Newly(before: seq<bool>, after: seq<bool>): set<nat>
  {
    set x: nat | x < |before| && x < |after| && after[x] && !before[x]
  }

  /** Every successor of a marked node below rank `r` that is not a stop is marked. */
  predicate ClosedBelow(d: Dag, stop: seq<bool>, marks: seq<bool>, r: int)
    requires WellFormed(d) && |stop| == |d.adj| && |marks| == |d.adj|
  {
    forall x, k | 0 <= x < |d.adj| && marks[x] && !stop[x] && d.rank[x] < r && 0 <= k < |d.adj[x]| ::
      marks[d.adj[x][k]]
  }

  /** Every successor of a marked node that is not a stop is marked. */
  predicate Closed(d: Dag, stop: seq<bool>, marks: seq<bool>)
    requires WellFormed(d) && |stop| == |d.adj| && |marks| == |d.adj|
  {
    forall x, k | 0 <= x < |d.adj| && marks[x] && !stop[x] && 0 <= k < |d.adj[x]| :: marks[d.adj[x][k]]
  }

  // ---------------------------------------------------------------------------
  // Families of claims
  // ---------------------------------------------------------------------------

  /** Everything some member of the family claims. */
  ghost function Union<K, X>(c: map<K, set<X>>): set<X>
  {
    set k, x | k in c && x in c[k] :: x
  }

  /** No member of the family claims anything in `base`, and no two members claim the same thing. */
  ghost predicate FamilyFree<K, X>(base: set<X>, c: map<K, set<X>>)
  {
    && (forall k | k in c :: c[k] !! base)
    && (forall k, j | k in c && j in c && k != j :: c[k] !! c[j])
  }

  /** One more member claims its own part on top of the family's. */
  lemma UnionAdd<K, X>(c: map<K, set<X>>, k: K, s: set<X>)
    requires k !in c
    ensures Union(c[k := s]) == Union(c) + s
  {
    var c' := c[k := s];
    forall x | x in Union(c')
      ensures x in Union(c) + s
    {
      var j :| j in c' && x in c'[j];
      if j != k {
        assert x in Union(c);
      }
    }
    forall x | x in Union(c) + s
      ensures x in Union(c')
    {
      if x in s {
        assert k in c' && x in c'[k];
      } else {
        var j :| j in c && x in c[j];
        assert j in c' && x in c'[j];
      }
    }
  }

  /** One more member keeps the family free exactly when it claims nothing already claimed. */
  lemma FamilyAdd<K, X>(base: set<X>, c: map<K, set<X>>, k: K, s: set<X>)
    requires k !in c
    ensures Union(c[k := s]) == Union(c) + s
    ensures FamilyFree(base, c[k := s]) <==> FamilyFree(base, c) && s !! (base + Union(c))
  {
    var c' := c[k := s];
    UnionAdd(c, k, s);
    if FamilyFree(base, c') {
      forall x | x in Union(c)
        ensures x !in s
      {
        var j :| j in c && x in c[j];
        assert c'[j] !! c'[k];
      }
      forall j, i | j in c && i in c && j != i
        ensures c[j] !! c[i]
      {
        assert c'[j] !! c'[i];
      }
    }
    if FamilyFree(base, c) && s !! (base + Union(c)) {
      forall j, i | j in c' && i in c' && j != i
        ensures c'[j] !! c'[i]
      {
        if j == k {
          forall x | x in c[i]
            ensures x in Union(c)
          {
          }
        } else if i == k {
          forall x | x in c[j]
            ensures x in Union(c)
          {
          }
        }
      }
    }
  }

  /** A family with fewer members than a free family is free. */
  lemma FamilySub<K, X>(base: set<X>, a: map<K, set<X>>, c: map<K, set<X>>)
    requires forall k | k in a :: k in c && a[k] == c[k]
    ensures FamilyFree(base, c) ==> FamilyFree(base, a)
  {
  }

  /** Joining two families with no member in common. */
  lemma FamilyJoin<K, X>(base: set<X>, a: map<K, set<X>>, b: map<K, set<X>>)
    requires a.Keys !! b.Keys
    ensures Union(a + b) == Union(a) + Union(b)
    ensures FamilyFree(base, a + b) <==> FamilyFree(base, a) && FamilyFree(base + Union(a), b)
  {
    var c := a + b;
    forall x | x in Union(c)
      ensures x in Union(a) + Union(b)
    {
      var j :| j in c && x in c[j];
      if j in b {
        assert x in Union(b);
      } else {
        assert x in Union(a);
      }
    }
    forall x | x in Union(a) + Union(b)
      ensures x in Union(c)
    {
      if x in Union(b) {
        var j :| j in b && x in b[j];
        assert j in c && x in c[j];
      } else {
        var j :| j in a && x in a[j];
        assert j in c && x in c[j];
      }
    }
    if FamilyFree(base, c) {
      FamilySub(base, a, c);
      forall i | i in b
        ensures b[i] !! (base + Union(a))
      {
        assert c[i] == b[i];
        forall x | x in Union(a)
          ensures x !in b[i]
        {
          var j :| j in a && x in a[j];
          assert c[j] !! c[i];
        }
      }
    }
    if FamilyFree(base, a) && FamilyFree(base + Union(a), b) {
      forall j, i | j in c && i in c && j != i
        ensures c[j] !! c[i]
      {
        if j in b && i !in b {
          forall x | x in a[i]
            ensures x in Union(a)
          {
          }
        } else if i in b && j !in b {
          forall x | x in a[j]
            ensures x in Union(a)
          {
          }
        }
      }
    }
  }

  /** The confirmed outputs each node of `e` spends. */
  function InputClaims(d: Dag, e: set<nat>): (c: map<nat, set<UTXO>>)
    ensures forall x :: x in c <==> x in e && x < |d.usedInputs|
    ensures forall x | x in c :: c[x] == d.usedInputs[x]
  {
    map x | x in e && x < |d.usedInputs| :: d.usedInputs[x]
  }

  /** The label pairs `(v, l)` for labels `l` on an edge into `v`. */
  function Tag(v: nat, labels: set<int>): (t: set<(nat, int)>)
    ensures forall w: nat, l: int :: (w, l) in t <==> w == v && l in labels
  {
    set l | l in labels :: (v, l)
  }

  /** What edge `k` of `x` claims: the output positions of its producer it spends. */
  function EdgeClaim(d: Dag, x: nat, k: nat): set<(nat, int)>
    requires x < |d.adj| && k < |d.adj[x]|
  {
    Tag(d.adj[x][k], LabelsOf(d.labels, x, d.adj[x][k]))
  }

  /** The edges leaving the nodes of `e` that are not stops, as (node, position) pairs. */
  function Occ(d: Dag, stop: seq<bool>, e: set<nat>): (o: set<(nat, nat)>)
    ensures forall x: nat, k: nat :: (x, k) in o <==> x in e && x < |d.adj| && x < |stop| && !stop[x] && k < |d.adj[x]|
  {
    set x: nat, k: nat | x in e && x < |d.adj| && x < |stop| && !stop[x] && k < |d.adj[x]| :: (x, k)
  }

  /** The first `k` edges of `u`. */
  function EdgesUpTo(u: nat, k: nat): (o: set<(nat, nat)>)
    ensures forall x: nat, j: nat :: (x, j) in o <==> x == u && j < k
  {
    set j: nat | j < k :: (u, j)
  }

  /** Whether `p` names an edge of `d`: a node and a position among its successors. */
  predicate IsEdge(d: Dag, p: (nat, nat))
  {
    p.0 < |d.adj| && p.1 < |d.adj[p.0]|
  }

  /** What each edge of `o` claims. */
  function LabelClaims(d: Dag, o: set<(nat, nat)>): (c: map<(nat, nat), set<(nat, int)>>)
    ensures forall p :: p in c <==> p in o && IsEdge(d, p)
    ensures forall p | p in c :: IsEdge(d, p) && c[p] == EdgeClaim(d, p.0, p.1)
  {
    map p | p in o && IsEdge(d, p) :: EdgeClaim(d, p.0, p.1)
  }

  /** The claimed labels per node, as (node, label) pairs. */
  function Pairs(claimed: seq<set<int>>): (t: set<(nat, int)>)
    ensures forall v: nat, l: int :: (v, l) in t <==> v < |claimed| && l in claimed[v]
  {
    set v: nat, l | v < |claimed| && l in claimed[v] :: (v, l)
  }

  /** Checking labels against the claims of one node is checking their pairs against all claims. */
  lemma PairsCheck(claimed: seq<set<int>>, v: nat, labels: set<int>)
    requires v < |claimed|
    ensures Tag(v, labels) !! Pairs(claimed) <==> labels !! claimed[v]
  {
    forall l | l in labels && l in claimed[v]
      ensures !(Tag(v, labels) !! Pairs(claimed))
    {
      assert (v, l) in Tag(v, labels) && (v, l) in Pairs(claimed);
    }
    if labels !! claimed[v] {
      forall p | p in Tag(v, labels)
        ensures p !in Pairs(claimed)
      {
        assert p == (p.0, p.1);
      }
    }
  }

  /** Claiming labels at one node adds exactly their pairs. */
  lemma PairsAdd(claimed: seq<set<int>>, v: nat, labels: set<int>)
    requires v < |claimed|
    ensures Pairs(claimed[v := claimed[v] + labels]) == Pairs(claimed) + Tag(v, labels)
  {
  }

  /** Nothing claimed anywhere. */
  lemma PairsNone(n: nat)
    ensures Pairs(seq(n, _ => {})) == {}
  {
  }

  // ---------------------------------------------------------------------------
  // What a search reaches
  // ---------------------------------------------------------------------------

  /** Everything reached from the `j`-th successor is reached from the first `k` successors, for `j < k`. */
  lemma {:induction false} ReachUpToHas(d: Dag, stop: seq<bool>, u: nat, k: nat, j: nat)
    requires WellFormed(d) && |stop| == |d.adj| && u < |d.adj| && j < k <= |d.adj[u]|
    ensures Reach(d, stop, d.adj[u][j]) <= ReachUpTo(d, stop, u, k)
    decreases k
  {
    if j < k - 1 {
      ReachUpToHas(d, stop, u, k - 1, j);
    }
  }

  /** Whatever the first `k` successors reach, one of them reaches. */
  lemma {:induction false} ReachUpToFrom(d: Dag, stop: seq<bool>, u: nat, k: nat, x: nat) returns (j: nat)
    requires WellFormed(d) && |stop| == |d.adj| && u < |d.adj| && k <= |d.adj[u]|
    requires x in ReachUpTo(d, stop, u, k)
    ensures j < k && x in Reach(d, stop, d.adj[u][j])
    decreases k
  {
    if x in Reach(d, stop, d.adj[u][k - 1]) {
      j := k - 1;
    } else {
      j := ReachUpToFrom(d, stop, u, k - 1, x);
    }
  }

  /** A search reaches every successor of every node it reaches and does not stop at. */
  lemma {:induction false} ReachSucc(d: Dag, stop: seq<bool>, u: nat, x: nat, k: nat)
    requires WellFormed(d) && |stop| == |d.adj| && u < |d.adj|
    requires x in Reach(d, stop, u) && !stop[x] && k < |d.adj[x]|
    ensures d.adj[x][k] in Reach(d, stop, u)
    decreases d.rank[u]
  {
    if x == u {
      ReachUpToHas(d, stop, u, |d.adj[u]|, k);
    } else {
      var j := ReachUpToFrom(d, stop, u, |d.adj[u]|, x);
      ReachSucc(d, stop, d.adj[u][j], x, k);
      ReachUpToHas(d, stop, u, |d.adj[u]|, j);
    }
  }

  /** Marks closed below rank `r` contain everything reached from a marked node below `r`. */
  lemma {:induction false} ClosedReach(d: Dag, stop: seq<bool>, marks: seq<bool>, r: int, v: nat)
    requires WellFormed(d) && |stop| == |d.adj| && |marks| == |d.adj| && ClosedBelow(d, stop, marks, r)
    requires v < |d.adj| && marks[v] && d.rank[v] < r
    ensures forall x | x in Reach(d, stop, v) :: marks[x]
    decreases d.rank[v]
  {
    forall x | x in Reach(d, stop, v)
      ensures marks[x]
    {
      if x != v {
        var j := ReachUpToFrom(d, stop, v, |d.adj[v]|, x);
        ClosedReach(d, stop, marks, r, d.adj[v][j]);
      }
    }
  }

  /** Closed marks are closed below every rank. */
  lemma ClosedEverywhere(d: Dag, stop: seq<bool>, marks: seq<bool>, r: int)
    requires WellFormed(d) && |stop| == |d.adj| && |marks| == |d.adj| && Closed(d, stop, marks)
    ensures ClosedBelow(d, stop, marks, r)
  {
  }

  /** The nodes reached from `u` through any edges. */
  function All(d: Dag, u: nat): set<nat>
    requires WellFormed(d) && u < |d.adj|
  {
    Reach(d, NoMarks(|d.adj|), u)
  }

  /** The nodes of the tree rooted at `u`: the search does not descend below leaves. */
  function Tree(d: Dag, u: nat): set<nat>
    requires WellFormed(d) && u < |d.adj|
  {
    Reach(d, d.isLeaf, u)
  }

  /**
   * When the used nodes are closed, everything unused that `r` reaches is
   * reached through unused nodes only: a used node on the way would have made
   * it used.
   */
  lemma {:induction false} ReachAvoids(d: Dag, used: seq<bool>, r: nat)
    requires WellFormed(d) && |used| == |d.adj| && Closed(d, NoMarks(|d.adj|), used)
    requires r < |d.adj| && !used[r]
    ensures forall x | x in All(d, r) && !used[x] :: x in Reach(d, used, r)
    decreases d.rank[r]
  {
    var none := NoMarks(|d.adj|);
    forall x | x in All(d, r) && !used[x]
      ensures x in Reach(d, used, r)
    {
      if x != r {
        var j := ReachUpToFrom(d, none, r, |d.adj[r]|, x);
        var y := d.adj[r][j];
        if used[y] {
          ClosedEverywhere(d, none, used, d.rank[y] + 1);
          ClosedReach(d, none, used, d.rank[y] + 1, y);
        } else {
          ReachAvoids(d, used, y);
          ReachUpToHas(d, used, r, |d.adj[r]|, j);
        }
      }
    }
  }

  /** No leaf has an edge: leaves spend only confirmed outputs. */
  predicate NoLeafEdges(d: Dag)
    requires WellFormed(d)
  {
    forall x | 0 <= x < |d.adj| && d.isLeaf[x] :: d.adj[x] == []
  }

  /** When no leaf has an edge, stopping at leaves changes nothing: the tree of `u` is all `u` reaches. */
  lemma {:induction false} TreeIsAll(d: Dag, u: nat)
    requires WellFormed(d) && NoLeafEdges(d) && u < |d.adj|
    ensures Tree(d, u) == All(d, u)
    decreases d.rank[u], 1
  {
    TreeIsAllUpTo(d, u, |d.adj[u]|);
  }

  lemma {:induction false} TreeIsAllUpTo(d: Dag, u: nat, k: nat)
    requires WellFormed(d) && NoLeafEdges(d) && u < |d.adj| && k <= |d.adj[u]|
    ensures ReachUpTo(d, d.isLeaf, u, k) == ReachUpTo(d, NoMarks(|d.adj|), u, k)
    decreases d.rank[u], 0, k
  {
    if k > 0 {
      TreeIsAllUpTo(d, u, k - 1);
      TreeIsAll(d, d.adj[u][k - 1]);
    }
  }

  /** The confirmed outputs of two disjoint node sets are claimed by disjoint families. */
  lemma InputClaimsJoin(d: Dag, a: set<nat>, b: set<nat>)
    requires a !! b
    ensures InputClaims(d, a).Keys !! InputClaims(d, b).Keys
    ensures InputClaims(d, a + b) == InputClaims(d, a) + InputClaims(d, b)
  {
  }

  /** The labels of two disjoint edge sets are claimed by disjoint families. */
  lemma LabelClaimsJoin(d: Dag, a: set<(nat, nat)>, b: set<(nat, nat)>)
    requires a !! b
    ensures LabelClaims(d, a).Keys !! LabelClaims(d, b).Keys
    ensures LabelClaims(d, a + b) == LabelClaims(d, a) + LabelClaims(d, b)
  {
  }

  // ---------------------------------------------------------------------------
  // Tree values
  // ---------------------------------------------------------------------------

  /**
   * Searching from `u`, past the nodes `v0` marks, with confirmed outputs `t0`
   * and label pairs `p0` already claimed, finds no claim twice: the new nodes
   * spend no confirmed output twice and the edges leaving them that are not
   * at leaves spend no producer output twice.
   */
  ghost predicate SearchFree(d: Dag, v0: seq<bool>, t0: set<UTXO>, p0: set<(nat, int)>, u: nat)
    requires WellFormed(d) && |v0| == |d.adj| && u < |d.adj|
  {
    var added := Tree(d, u) - Marked(v0);
    FamilyFree(t0, InputClaims(d, added)) && FamilyFree(p0, LabelClaims(d, Occ(d, d.isLeaf, added)))
  }

  /** The tree rooted at `u` spends no confirmed output twice and no producer output twice. */
  ghost predicate TreeOk(d: Dag, u: nat)
    requires WellFormed(d) && u < |d.adj|
  {
    FamilyFree({}, InputClaims(d, Tree(d, u))) && FamilyFree({}, LabelClaims(d, Occ(d, d.isLeaf, Tree(d, u))))
  }

  /** The fees of the nodes of `s`. */
  function FeeOf(value: seq<int>, s: set<nat>): int
  {
    NewlyMarkedSum(value, NoMarks(|value|), Mark(NoMarks(|value|), s))
  }

  /** The value of the tree rooted at `u`: its fees, or -1 when it claims something twice. */
  ghost function TreeValue(d: Dag, u: nat): int
    requires WellFormed(d) && u < |d.adj|
  {
    if TreeOk(d, u) then FeeOf(d.value, Tree(d, u)) else -1
  }

  /** The tree value of every node, by index. */
  ghost function TreeValues(d: Dag): (tv: seq<int>)
    requires WellFormed(d)
    ensures |tv| == |d.adj| && forall i | 0 <= i < |d.adj| :: tv[i] == TreeValue(d, i)
  {
    seq(|d.adj|, i requires 0 <= i < |d.adj| => TreeValue(d, i))
  }

  /** With fees never negative, a tree is worth at least its root's fee and at most all fees. */
  lemma TreeValueBounds(d: Dag, u: nat)
    requires WellFormed(d) && u < |d.adj|
    requires forall i | 0 <= i < |d.value| :: d.value[i] >= 0
    ensures TreeValue(d, u) == -1 || d.value[u] <= TreeValue(d, u) <= Total(d.value)
  {
    var none := NoMarks(|d.value|);
    NewlyMarkedSumBounds(d.value, none, Mark(none, Tree(d, u)), u);
  }

  /** With every fee zero, no tree has a positive value. */
  lemma ZeroFeesNoValue(d: Dag)
    requires WellFormed(d) && forall i | 0 <= i < |d.value| :: d.value[i] == 0
    ensures forall i | 0 <= i < |d.adj| :: TreeValue(d, i) <= 0
  {
    TotalOfZeros(d.value);
    forall i | 0 <= i < |d.adj|
      ensures TreeValue(d, i) <= 0
    {
      TreeValueBounds(d, i);
    }
  }

  /** The roots, by descending tree value, ties by ascending index. */
  ghost function Order(d: Dag): seq<nat>
    requires WellFormed(d)
  {
    var tv := TreeValues(d);
    SortByTreeValue(PositiveRoots(tv), tv)
  }

  /** Every root in the order has a positive tree value, and every node of positive tree value is a root. */
  lemma OrderRoots(d: Dag)
    requires WellFormed(d)
    ensures forall r: nat :: r in Order(d) <==> r < |d.adj| && TreeValue(d, r) > 0
  {
    var tv := TreeValues(d);
    PositiveRootsCorrect(tv);
    SameMembers(Order(d), PositiveRoots(tv));
  }

  // ---------------------------------------------------------------------------
  // The greedy claim
  // ---------------------------------------------------------------------------

  /** What has been claimed so far: the used nodes and the claimed (producer, output position) pairs. */
  datatype Claims = Claims(used: seq<bool>, claimed: set<(nat, int)>)

  /**
   * No edge that leaves an unused node reached from `u` through unused nodes,
   * and enters a used node, spends an output already claimed.
   */
  ghost predicate Unclaimed(d: Dag, used: seq<bool>, claimed: set<(nat, int)>, u: nat)
    requires WellFormed(d) && |used| == |d.adj| && u < |d.adj|
  {
    forall x, k | x in Reach(d, used, u) && !used[x] && 0 <= k < |d.adj[x]| && used[d.adj[x][k]] ::
      EdgeClaim(d, x, k) !! claimed
  }

  /** Claiming from `r`: everything `r` reaches becomes used and every edge leaving a newly used node is claimed. */
  ghost function Grab(d: Dag, s: Claims, r: nat): (t: Claims)
    requires WellFormed(d) && |s.used| == |d.adj| && r < |d.adj|
    ensures |t.used| == |d.adj|
  {
    var added := All(d, r) - Marked(s.used);
    Claims(Mark(s.used, All(d, r)), s.claimed + Union(LabelClaims(d, Occ(d, NoMarks(|d.adj|), added))))
  }

  /** The roots claimed, and the claims they leave. */
  datatype Pick = Pick(taken: seq<nat>, state: Claims)

  /** Tries the roots in order, claiming from each one that is unused and whose unused part is unclaimed. */
  ghost function Greedy(d: Dag, order: seq<nat>, s: Claims): (p: Pick)
    requires WellFormed(d) && |s.used| == |d.adj| && forall i | 0 <= i < |order| :: order[i] < |d.adj|
    ensures |p.state.used| == |d.adj| && forall i | 0 <= i < |p.taken| :: p.taken[i] < |d.adj|
    decreases |order|
  {
    if order == [] then Pick([], s)
    else
      var r := order[0];
      if !s.used[r] && Unclaimed(d, s.used, s.claimed, r) then
        var p := Greedy(d, order[1..], Grab(d, s, r));
        Pick([r] + p.taken, p.state)
      else Greedy(d, order[1..], s)
  }

  /** The trees the selector claims: the greedy claim over the roots in order, from nothing claimed. */
  ghost function Selection(d: Dag): Pick
    requires WellFormed(d)
  {
    Greedy(d, Order(d), Claims(NoMarks(|d.adj|), {}))
  }

  /**
   * The used nodes are closed, the claimed pairs are exactly what the edges
   * leaving used nodes spend, and no two of those edges spend the same output.
   */
  ghost predicate ClaimsSound(d: Dag, s: Claims)
    requires WellFormed(d) && |s.used| == |d.adj|
  {
    var edges := LabelClaims(d, Occ(d, NoMarks(|d.adj|), Marked(s.used)));
    Closed(d, NoMarks(|d.adj|), s.used) && s.claimed == Union(edges) && FamilyFree({}, edges)
  }

  /** Under sound claims every claimed pair names a used producer. */
  lemma ClaimedTargetsUsed(d: Dag, s: Claims, v: nat, l: int)
    requires WellFormed(d) && |s.used| == |d.adj| && ClaimsSound(d, s)
    requires (v, l) in s.claimed
    ensures v < |d.adj| && s.used[v]
  {
    var edges := LabelClaims(d, Occ(d, NoMarks(|d.adj|), Marked(s.used)));
    var e :| e in edges && (v, l) in edges[e];
    assert e == (e.0, e.1);
  }

  /** The edges leaving two disjoint node sets are disjoint, and those leaving their union are theirs together. */
  lemma OccJoin(d: Dag, stop: seq<bool>, a: set<nat>, b: set<nat>)
    requires a !! b
    ensures Occ(d, stop, a) !! Occ(d, stop, b)
    ensures Occ(d, stop, a + b) == Occ(d, stop, a) + Occ(d, stop, b)
  {
    forall p | p in Occ(d, stop, a)
      ensures p !in Occ(d, stop, b)
    {
      assert p == (p.0, p.1);
    }
    forall p | p in Occ(d, stop, a + b)
      ensures p in Occ(d, stop, a) + Occ(d, stop, b)
    {
      assert p == (p.0, p.1);
    }
    forall p | p in Occ(d, stop, a) + Occ(d, stop, b)
      ensures p in Occ(d, stop, a + b)
    {
      assert p == (p.0, p.1);
    }
  }

  /** Fewer nodes leave fewer edges. */
  lemma OccSub(d: Dag, stop: seq<bool>, a: set<nat>, b: set<nat>)
    requires a <= b
    ensures Occ(d, stop, a) <= Occ(d, stop, b)
  {
    forall p | p in Occ(d, stop, a)
      ensures p in Occ(d, stop, b)
    {
      assert p == (p.0, p.1);
    }
  }

  /** The new edges a grab claims spend nothing already claimed: into used producers by `Unclaimed`, into the others because they were never claimed. */
  lemma GrabNewEdgesFree(d: Dag, s: Claims, r: nat)
    requires WellFormed(d) && |s.used| == |d.adj| && r < |d.adj| && ClaimsSound(d, s)
    requires !s.used[r] && Unclaimed(d, s.used, s.claimed, r)
    ensures forall e | e in LabelClaims(d, Occ(d, NoMarks(|d.adj|), All(d, r) - Marked(s.used))) ::
      LabelClaims(d, Occ(d, NoMarks(|d.adj|), All(d, r) - Marked(s.used)))[e] !! s.claimed
  {
    var none := NoMarks(|d.adj|);
    var added := All(d, r) - Marked(s.used);
    var edges := LabelClaims(d, Occ(d, none, added));
    ReachAvoids(d, s.used, r);
    forall e | e in edges
      ensures edges[e] !! s.claimed
    {
      var x, k := e.0, e.1;
      assert e == (x, k);
      var t := d.adj[x][k];
      if !s.used[t] {
        forall q | q in edges[e]
          ensures q !in s.claimed
        {
          assert q == (q.0, q.1);
          if q in s.claimed {
            ClaimedTargetsUsed(d, s, q.0, q.1);
          }
        }
      }
    }
  }

  /** A grab from an unused, unclaimed root whose reach spends no output twice keeps the claims sound. */
  lemma GrabSound(d: Dag, s: Claims, r: nat)
    requires WellFormed(d) && |s.used| == |d.adj| && r < |d.adj| && ClaimsSound(d, s)
    requires !s.used[r] && Unclaimed(d, s.used, s.claimed, r)
    requires FamilyFree({}, LabelClaims(d, Occ(d, NoMarks(|d.adj|), All(d, r))))
    ensures ClaimsSound(d, Grab(d, s, r))
  {
    GrabClosed(d, s, r);
    GrabFamily(d, s, r);
  }

  /** Grabbing a root's whole descent keeps the used nodes closed under edges. */
  lemma GrabClosed(d: Dag, s: Claims, r: nat)
    requires WellFormed(d) && |s.used| == |d.adj| && r < |d.adj| && Closed(d, NoMarks(|d.adj|), s.used)
    ensures Closed(d, NoMarks(|d.adj|), Grab(d, s, r).used)
  {
    var none := NoMarks(|d.adj|);
    var t := Grab(d, s, r);
    forall x, k | 0 <= x < |d.adj| && t.used[x] && 0 <= k < |d.adj[x]|
      ensures t.used[d.adj[x][k]]
    {
      if !s.used[x] {
        ReachSucc(d, none, r, x, k);
      }
    }
  }

  /** Grabbing an unclaimed root whose own claims are disjoint keeps all claims disjoint. */
  lemma GrabFamily(d: Dag, s: Claims, r: nat)
    requires WellFormed(d) && |s.used| == |d.adj| && r < |d.adj| && ClaimsSound(d, s)
    requires !s.used[r] && Unclaimed(d, s.used, s.claimed, r)
    requires FamilyFree({}, LabelClaims(d, Occ(d, NoMarks(|d.adj|), All(d, r))))
    ensures var t := Grab(d, s, r);
      var edges := LabelClaims(d, Occ(d, NoMarks(|d.adj|), Marked(t.used)));
      t.claimed == Union(edges) && FamilyFree({}, edges)
  {
    var none := NoMarks(|d.adj|);
    var before := Marked(s.used);
    var added := All(d, r) - before;
    var t := Grab(d, s, r);
    assert Marked(t.used) == before + added;
    OccJoin(d, none, before, added);
    LabelClaimsJoin(d, Occ(d, none, before), Occ(d, none, added));
    var a := LabelClaims(d, Occ(d, none, before));
    var b := LabelClaims(d, Occ(d, none, added));
    GrabNewEdgesFree(d, s, r);
    OccSub(d, none, added, All(d, r));
    FamilySub({}, b, LabelClaims(d, Occ(d, none, All(d, r))));
    FamilyGrow(a, b, s.claimed, t.claimed);
  }

  /**
   * A disjoint family `b` whose members avoid everything `a` claims extends
   * the disjoint family `a`.
   */
  lemma FamilyGrow<K, X>(a: map<K, set<X>>, b: map<K, set<X>>, claimed: set<X>, claimed': set<X>)
    requires a.Keys !! b.Keys && claimed == Union(a) && FamilyFree({}, a) && FamilyFree({}, b)
    requires forall k | k in b :: b[k] !! claimed
    requires claimed' == claimed + Union(b)
    ensures claimed' == Union(a + b) && FamilyFree({}, a + b)
  {
    FamilyJoin({}, a, b);
  }

  /** The greedy claim keeps the claims sound when every root's reach spends no output twice. */
  lemma {:induction false} GreedySound(d: Dag, order: seq<nat>, s: Claims)
    requires WellFormed(d) && |s.used| == |d.adj| && ClaimsSound(d, s)
    requires forall i | 0 <= i < |order| :: order[i] < |d.adj|
    requires forall i | 0 <= i < |order| :: FamilyFree({}, LabelClaims(d, Occ(d, NoMarks(|d.adj|), All(d, order[i]))))
    ensures ClaimsSound(d, Greedy(d, order, s).state)
    decreases |order|
  {
    if order != [] {
      var r := order[0];
      if !s.used[r] && Unclaimed(d, s.used, s.claimed, r) {
        GrabSound(d, s, r);
        GreedySound(d, order[1..], Grab(d, s, r));
      } else {
        GreedySound(d, order[1..], s);
      }
    }
  }

  /** When no leaf has an edge, stopping at leaves leaves out no edge. */
  lemma OccLeafFree(d: Dag, a: set<nat>)
    requires WellFormed(d) && NoLeafEdges(d)
    ensures Occ(d, d.isLeaf, a) == Occ(d, NoMarks(|d.adj|), a)
  {
    forall p | p in Occ(d, NoMarks(|d.adj|), a)
      ensures p in Occ(d, d.isLeaf, a)
    {
      assert p == (p.0, p.1);
    }
  }

  /**
   * When no leaf has an edge, the selector never claims two edges that spend
   * the same output of a producer, and the pairs it records as claimed are
   * exactly what the edges leaving the claimed nodes spend.
   */
  lemma SelectionSound(d: Dag)
    requires WellFormed(d) && NoLeafEdges(d)
    ensures ClaimsSound(d, Selection(d).state)
  {
    var order := Order(d);
    var none := NoMarks(|d.adj|);
    OrderRoots(d);
    forall i | 0 <= i < |order|
      ensures FamilyFree({}, LabelClaims(d, Occ(d, none, All(d, order[i]))))
    {
      var r := order[i];
      assert r in order;
      TreeIsAll(d, r);
      OccLeafFree(d, Tree(d, r));
    }
    var start := Claims(none, {});
    assert Marked(none) == {};
    assert Occ(d, none, {}) == {};
    GreedySound(d, order, start);
  }

  // ---------------------------------------------------------------------------
  // Helpers for the searches
  // ---------------------------------------------------------------------------

  /** The first `k` successors reach no more than the first `m`, for `k <= m`. */
  lemma {:induction false} ReachUpToMono(d: Dag, stop: seq<bool>, u: nat, k: nat, m: nat)
    requires WellFormed(d) && |stop| == |d.adj| && u < |d.adj| && k <= m <= |d.adj[u]|
    ensures ReachUpTo(d, stop, u, k) <= ReachUpTo(d, stop, u, m)
    decreases m - k
  {
    if k < m {
      ReachUpToMono(d, stop, u, k, m - 1);
    }
  }

  /** Every successor of a node newly marked and not a stop is marked. */
  predicate NewlyClosed(d: Dag, stop: seq<bool>, before: seq<bool>, after: seq<bool>)
    requires WellFormed(d) && |stop| == |d.adj| && |before| == |d.adj| && |after| == |d.adj|
  {
    forall x, k | 0 <= x < |d.adj| && after[x] && !before[x] && !stop[x] && 0 <= k < |d.adj[x]| ::
      after[d.adj[x][k]]
  }

  /** Fewer nodes claim a part of the confirmed outputs more nodes claim. */
  lemma InputClaimsSub(d: Dag, a: set<nat>, b: set<nat>)
    requires a <= b
    ensures forall x | x in InputClaims(d, a) :: x in InputClaims(d, b) && InputClaims(d, a)[x] == InputClaims(d, b)[x]
  {
  }

  /** Fewer edges claim a part of the labels more edges claim. */
  lemma LabelClaimsSub(d: Dag, a: set<(nat, nat)>, b: set<(nat, nat)>)
    requires a <= b
    ensures forall e | e in LabelClaims(d, a) :: e in LabelClaims(d, b) && LabelClaims(d, a)[e] == LabelClaims(d, b)[e]
  {
    forall e | e in LabelClaims(d, a)
      ensures e in LabelClaims(d, b) && LabelClaims(d, a)[e] == LabelClaims(d, b)[e]
    {
      assert e == (e.0, e.1);
    }
  }

  /** From nothing visited or claimed, a search is free exactly when the tree is. */
  lemma SearchFreeAtStart(d: Dag, u: nat)
    requires WellFormed(d) && u < |d.adj|
    ensures SearchFree(d, NoMarks(|d.adj|), {}, {}, u) == TreeOk(d, u)
  {
    assert Marked(NoMarks(|d.adj|)) == {};
    assert Tree(d, u) - {} == Tree(d, u);
  }

  /**
   * The check from `u`, edge by edge from the `k`-th: an edge into a used
   * producer spends nothing claimed, and an unused producer passes the check
   * itself.
   */
  ghost predicate UnclaimedFrom(d: Dag, used: seq<bool>, claimed: set<(nat, int)>, u: nat, k: nat)
    requires WellFormed(d) && |used| == |d.adj| && u < |d.adj|
  {
    forall j | k <= j < |d.adj[u]| ::
      if used[d.adj[u][j]] then EdgeClaim(d, u, j) !! claimed else Unclaimed(d, used, claimed, d.adj[u][j])
  }

  /** An unused node's unused part is unclaimed exactly when each of its edges passes the check. */
  lemma UnclaimedEdges(d: Dag, used: seq<bool>, claimed: set<(nat, int)>, u: nat)
    requires WellFormed(d) && |used| == |d.adj| && u < |d.adj| && !used[u]
    ensures Unclaimed(d, used, claimed, u) <==> UnclaimedFrom(d, used, claimed, u, 0)
  {
    if Unclaimed(d, used, claimed, u) {
      forall j | 0 <= j < |d.adj[u]| && !used[d.adj[u][j]]
        ensures Unclaimed(d, used, claimed, d.adj[u][j])
      {
        ReachUpToHas(d, used, u, |d.adj[u]|, j);
      }
    }
    if UnclaimedFrom(d, used, claimed, u, 0) {
      forall x, k | x in Reach(d, used, u) && !used[x] && 0 <= k < |d.adj[x]| && used[d.adj[x][k]]
        ensures EdgeClaim(d, x, k) !! claimed
      {
        if x != u {
          var j := ReachUpToFrom(d, used, u, |d.adj[u]|, x);
          assert Unclaimed(d, used, claimed, d.adj[u][j]);
        }
      }
    }
  }

  /** One more edge adds its own claim. */
  lemma LabelClaimsAdd(d: Dag, o: set<(nat, nat)>, x: nat, k: nat)
    requires x < |d.adj| && k < |d.adj[x]|
    ensures LabelClaims(d, o + {(x, k)}) == LabelClaims(d, o)[(x, k) := EdgeClaim(d, x, k)]
  {
    var a := LabelClaims(d, o + {(x, k)});
    var b := LabelClaims(d, o)[(x, k) := EdgeClaim(d, x, k)];
    forall e | e in a
      ensures e in b && a[e] == b[e]
    {
      assert e == (e.0, e.1);
    }
    forall e | e in b
      ensures e in a
    {
      assert e == (e.0, e.1);
    }
  }
}
