/**
 * Two small dependency graphs worked through the selector's definitions: a
 * dependent chain is claimed as one tree, worth more than its parts, and of
 * two trees that spend the same producer output only the more valuable one is
 * claimed.
 */
module FeeCases {
  import opened Ledger
  import opened FeeTrees
  import opened FeeGraph
  import MaxFee

  /** A family of one member that avoids the base claims nothing twice. */
  lemma FreeOne<K, X>(base: set<X>, c: map<K, set<X>>, k: K)
    requires c.Keys == {k} && c[k] !! base
    ensures FamilyFree(base, c)
  {
  }

  /** A family of two disjoint members that avoid the base claims nothing twice. */
  lemma FreeTwo<K, X>(base: set<X>, c: map<K, set<X>>, a: K, b: K)
    requires c.Keys == {a, b} && c[a] !! base && c[b] !! base && c[a] !! c[b]
    ensures FamilyFree(base, c)
  {
  }

  /** A tree that claims nothing twice is worth the fees of its nodes. */
  lemma ValueOfTree(d: Dag, u: nat, t: set<nat>)
    requires WellFormed(d) && u < |d.adj| && TreeOk(d, u) && Tree(d, u) == t
    ensures TreeValue(d, u) == FeeOf(d.value, t)
  {
  }

  /** The fees of a set of three nodes, summed node by node. */
  lemma FeeOfThree(value: seq<int>, s: set<nat>)
    requires |value| == 3
    ensures FeeOf(value, s) == (if 0 in s then value[0] else 0) + (if 1 in s then value[1] else 0)
                               + (if 2 in s then value[2] else 0)
  {
    ThreeSum(value, NoMarks(3), Mark(NoMarks(3), s));
  }

  /**
   * Node 0 spends the confirmed output (7, 0) and pays a fee of 3; node 1
   * spends output 0 of node 0 and pays a fee of 2.
   */
  function ChainDag(): (d: Dag)
    ensures WellFormed(d)
  {
    Dag([[], [0]], [0, 1], [true, false], [3, 2], [{UTXO(7, 0)}, {}], map[(1, 0) := {0}])
  }

  /** The parent is a leaf, so its tree is itself; the child's tree holds both. */
  lemma ChainTrees()
    ensures Tree(ChainDag(), 0) == {0} && Tree(ChainDag(), 1) == {0, 1}
  {
    var d := ChainDag();
    assert Tree(d, 0) == {0};
    assert ReachUpTo(d, d.isLeaf, 1, 1) == {0};
  }

  /** The sum over newly marked nodes among two, node by node. */
  lemma TwoSum(value: seq<int>, before: seq<bool>, after: seq<bool>)
    requires |value| == 2 && |before| == 2 && |after| == 2
    ensures NewlyMarkedSum(value, before, after)
            == (if after[0] && !before[0] then value[0] else 0) + (if after[1] && !before[1] then value[1] else 0)
  {
    var v1, b1, a1 := value[..1], before[..1], after[..1];
    assert v1[..0] == [] && b1[..0] == [] && a1[..0] == [];
    assert NewlyMarkedSum(v1, b1, a1) == NewlyMarkedSum([], [], []) + (if a1[0] && !b1[0] then v1[0] else 0);
  }

  /** The parent alone is worth its own fee. */
  lemma ChainParent()
    ensures TreeValue(ChainDag(), 0) == 3
  {
    var d := ChainDag();
    ChainTrees();
    assert InputClaims(d, {0}) == map[0 := {UTXO(7, 0)}];
    assert Occ(d, d.isLeaf, {0}) == {};
    TwoSum(d.value, NoMarks(2), Mark(NoMarks(2), {0}));
  }

  /** The chain's tree spends (7, 0) once and output 0 of node 0 once. */
  lemma ChainChildOk()
    ensures TreeOk(ChainDag(), 1)
  {
    var d := ChainDag();
    ChainTrees();
    var inputs := InputClaims(d, {0, 1});
    assert inputs.Keys == {0, 1};
    FreeTwo({}, inputs, 0, 1);
    assert Occ(d, d.isLeaf, {0, 1}) == {(1, 0)};
    FreeOne({}, LabelClaims(d, {(1, 0)}), (1, 0));
  }

  /** The child's tree is worth both fees. */
  lemma ChainChild()
    ensures TreeValue(ChainDag(), 1) == 5
  {
    var d := ChainDag();
    ChainTrees();
    ChainChildOk();
    TwoSum(d.value, NoMarks(2), Mark(NoMarks(2), {0, 1}));
  }

  /** Scores 3 and 5: both nodes are roots, node 1 first. */
  lemma OrderThreeFive()
    ensures PositiveRoots([3, 5]) == [0, 1]
    ensures SortByTreeValue([0, 1], [3, 5]) == [1, 0]
  {
    assert [3, 5][..1] == [3];
    assert [3][..0] == [];
    assert [0, 1][..1] == [0];
    assert [0][..0] == [];
  }

  /** The tree values of the chain, by node. */
  lemma ChainValues()
    ensures TreeValues(ChainDag()) == [3, 5]
  {
    ChainParent();
    ChainChild();
  }

  /** The child is tried before the parent. */
  lemma ChainOrder()
    ensures Order(ChainDag()) == [1, 0]
  {
    ChainValues();
    OrderThreeFive();
  }

  /** Nothing is claimed yet, so node 1's tree is unclaimed. */
  lemma ChainUnclaimed()
    ensures Unclaimed(ChainDag(), NoMarks(2), {}, 1)
  {
    var d := ChainDag();
    assert Reach(d, NoMarks(2), 0) == {0};
  }

  /** The first greedy step claims both nodes from node 1. */
  lemma ChainGrab()
    ensures Unclaimed(ChainDag(), NoMarks(2), {}, 1)
    ensures Grab(ChainDag(), Claims(NoMarks(2), {}), 1).used == [true, true]
  {
    var d := ChainDag();
    ChainUnclaimed();
    assert All(d, 1) == {0, 1};
  }

  /** Trying node 1 then node 0 claims node 1's tree and skips node 0, already used. */
  lemma ChainGreedy()
    ensures Greedy(ChainDag(), [1, 0], Claims(NoMarks(2), {})).taken == [1]
    ensures Greedy(ChainDag(), [1, 0], Claims(NoMarks(2), {})).state.used == [true, true]
  {
    var d := ChainDag();
    ChainGrab();
    var s1 := Grab(d, Claims(NoMarks(2), {}), 1);
    assert Greedy(d, [0], s1) == Pick([], s1);
    assert [1, 0][1..] == [0];
  }

  /** The chain is claimed as one tree from its child: its value 5 beats the parent's 3 alone. */
  lemma ChainBeatsParts()
    ensures TreeValues(ChainDag()) == [3, 5]
    ensures Selection(ChainDag()).taken == [1]
    ensures Selection(ChainDag()).state.used == [true, true]
  {
    ChainValues();
    ChainOrder();
    ChainGreedy();
  }

  /**
   * Node 0 spends the confirmed output (7, 0) and pays 1; nodes 1 and 2 both
   * spend output 0 of node 0 and pay 5 and 3.
   */
  function CollideDag(): (d: Dag)
    ensures WellFormed(d)
  {
    Dag([[], [0], [0]], [0, 1, 1], [true, false, false], [1, 5, 3], [{UTXO(7, 0)}, {}, {}],
        map[(1, 0) := {0}, (2, 0) := {0}])
  }

  /** The root is a leaf; each child's tree holds itself and the root. */
  lemma CollideTrees()
    ensures Tree(CollideDag(), 0) == {0} && Tree(CollideDag(), 1) == {0, 1} && Tree(CollideDag(), 2) == {0, 2}
  {
    var d := CollideDag();
    assert Tree(d, 0) == {0};
    assert ReachUpTo(d, d.isLeaf, 1, 1) == {0};
    assert ReachUpTo(d, d.isLeaf, 2, 1) == {0};
  }

  /** The sum over newly marked nodes among three, node by node. */
  lemma ThreeSum(value: seq<int>, before: seq<bool>, after: seq<bool>)
    requires |value| == 3 && |before| == 3 && |after| == 3
    ensures NewlyMarkedSum(value, before, after)
            == (if after[0] && !before[0] then value[0] else 0) + (if after[1] && !before[1] then value[1] else 0)
               + (if after[2] && !before[2] then value[2] else 0)
  {
    TwoSum(value[..2], before[..2], after[..2]);
  }

  /** The tree of node 1 spends (7, 0) once and output 0 of node 0 once. */
  lemma CollideOneOk()
    ensures TreeOk(CollideDag(), 1)
  {
    var d := CollideDag();
    CollideTrees();
    var inputs := InputClaims(d, {0, 1});
    assert inputs.Keys == {0, 1};
    FreeTwo({}, inputs, 0, 1);
    assert Occ(d, d.isLeaf, {0, 1}) == {(1, 0)};
    FreeOne({}, LabelClaims(d, {(1, 0)}), (1, 0));
  }

  /** The tree of node 2 spends (7, 0) once and output 0 of node 0 once. */
  lemma CollideTwoOk()
    ensures TreeOk(CollideDag(), 2)
  {
    var d := CollideDag();
    CollideTrees();
    var inputs := InputClaims(d, {0, 2});
    assert inputs.Keys == {0, 2};
    FreeTwo({}, inputs, 0, 2);
    assert Occ(d, d.isLeaf, {0, 2}) == {(2, 0)};
    FreeOne({}, LabelClaims(d, {(2, 0)}), (2, 0));
  }

  /** The root alone is worth its own fee. */
  lemma CollideRootValue()
    ensures TreeValue(CollideDag(), 0) == 1
  {
    var d := CollideDag();
    CollideTrees();
    assert InputClaims(d, {0}).Keys == {0};
    FreeOne({}, InputClaims(d, {0}), 0);
    assert Occ(d, d.isLeaf, {0}) == {};
    ThreeSum(d.value, NoMarks(3), Mark(NoMarks(3), {0}));
  }

  /** The tree of node 1 is worth 1 + 5. */
  lemma CollideOneValue()
    ensures TreeValue(CollideDag(), 1) == 6
  {
    CollideTrees();
    CollideOneOk();
    ValueOfTree(CollideDag(), 1, {0, 1});
    FeeOfThree(CollideDag().value, {0, 1});
  }

  /** The tree of node 2 is worth 1 + 3. */
  lemma CollideTwoValue()
    ensures TreeValue(CollideDag(), 2) == 4
  {
    CollideTrees();
    CollideTwoOk();
    ValueOfTree(CollideDag(), 2, {0, 2});
    FeeOfThree(CollideDag().value, {0, 2});
  }

  /** Three tree values make the sequence of tree values. */
  lemma ThreeValues(d: Dag, a: int, b: int, c: int)
    requires WellFormed(d) && |d.adj| == 3
    requires TreeValue(d, 0) == a && TreeValue(d, 1) == b && TreeValue(d, 2) == c
    ensures TreeValues(d) == [a, b, c]
  {
    var tv := TreeValues(d);
    assert tv[0] == a && tv[1] == b && tv[2] == c;
  }

  /** The tree values of the colliding graph, by node. */
  lemma CollideValues()
    ensures TreeValues(CollideDag()) == [1, 6, 4]
  {
    CollideRootValue();
    CollideOneValue();
    CollideTwoValue();
    ThreeValues(CollideDag(), 1, 6, 4);
  }

  /** Scores 1 and 6 are both positive. */
  lemma RootsOneSix()
    ensures PositiveRoots([1, 6]) == [0, 1]
  {
    assert [1, 6][..1] == [1];
    assert [1][..0] == [];
  }

  /** Scores 1, 6 and 4 are all positive. */
  lemma RootsOneSixFour()
    ensures PositiveRoots([1, 6, 4]) == [0, 1, 2]
  {
    RootsOneSix();
    assert [1, 6, 4][..2] == [1, 6];
  }

  /** Node 1 scores more than node 0 and sorts first. */
  lemma SortZeroOne(tv: seq<int>)
    requires |tv| == 3 && tv[1] > tv[0]
    ensures SortByTreeValue([0, 1], tv) == [1, 0]
  {
    assert SortByTreeValue([0], tv) == [0] by {
      assert [0][..0] == [];
    }
    assert [0, 1][..1] == [0];
  }

  /** Node 2 scores less than node 1 and more than node 0, and is inserted between them. */
  lemma InsertTwo(tv: seq<int>)
    requires |tv| == 3 && tv[2] <= tv[1] && tv[2] > tv[0]
    ensures InsertByValue([1, 0], 2, tv) == [1, 2, 0]
  {
    assert InsertByValue([0], 2, tv) == [2, 0];
    assert [1, 0][1..] == [0];
  }

  /** Sorting nodes 0, 1, 2 by these comparisons gives 1, 2, 0. */
  lemma SortOneSixFour(tv: seq<int>)
    requires |tv| == 3 && tv[1] > tv[0] && tv[2] <= tv[1] && tv[2] > tv[0]
    ensures SortByTreeValue([0, 1, 2], tv) == [1, 2, 0]
  {
    SortZeroOne(tv);
    InsertTwo(tv);
    assert [0, 1, 2][..2] == [0, 1];
  }

  /** Scores 1, 6 and 4: every node is a root, tried in the order 1, 2, 0. */
  lemma OrderOneSixFour()
    ensures PositiveRoots([1, 6, 4]) == [0, 1, 2]
    ensures SortByTreeValue([0, 1, 2], [1, 6, 4]) == [1, 2, 0]
  {
    RootsOneSixFour();
    SortOneSixFour([1, 6, 4]);
  }

  /** The roots of the colliding graph are tried in the order 1, 2, 0. */
  lemma CollideOrder()
    ensures Order(CollideDag()) == [1, 2, 0]
  {
    CollideValues();
    OrderOneSixFour();
  }

  /** Node 1 reaches itself and the root. */
  lemma CollideAll()
    ensures All(CollideDag(), 1) == {0, 1}
  {
    assert Reach(CollideDag(), NoMarks(3), 0) == {0};
  }

  /** Marking nodes 0 and 1 of three. */
  lemma MarkZeroOne()
    ensures Mark(NoMarks(3), {0, 1}) == [true, true, false]
  {
    var m := Mark(NoMarks(3), {0, 1});
    assert m[0] && m[1] && !m[2];
  }

  /** Claiming from node 1 uses nodes 0 and 1 and claims output 0 of node 0. */
  lemma CollideGrab()
    ensures Unclaimed(CollideDag(), NoMarks(3), {}, 1)
    ensures Grab(CollideDag(), Claims(NoMarks(3), {}), 1).used == [true, true, false]
    ensures (0, 0) in Grab(CollideDag(), Claims(NoMarks(3), {}), 1).claimed
  {
    var d := CollideDag();
    var none := NoMarks(3);
    CollideAll();
    MarkZeroOne();
    assert Marked(none) == {};
    var edges := LabelClaims(d, Occ(d, none, {0, 1}));
    assert (1, 0) in edges && (0, 0) in edges[(1, 0)];
  }

  /** Node 2's edge into the used node 0 spends output 0 of node 0, already claimed. */
  lemma CollideBlocked(s: Claims)
    requires s.used == [true, true, false] && (0, 0) in s.claimed
    ensures !Unclaimed(CollideDag(), s.used, s.claimed, 2)
  {
    var d := CollideDag();
    assert 2 in Reach(d, s.used, 2);
    assert (0, 0) in EdgeClaim(d, 2, 0);
  }

  /** After node 1's claim, node 2 collides with it and node 0 is used: neither is claimed. */
  lemma CollideRest(s: Claims)
    requires s.used == [true, true, false] && (0, 0) in s.claimed
    ensures Greedy(CollideDag(), [2, 0], s) == Pick([], s)
  {
    var d := CollideDag();
    CollideBlocked(s);
    assert Greedy(d, [0], s) == Pick([], s);
    assert [2, 0][1..] == [0];
  }

  /** Of three roots, a first that is unused and unclaimed is taken; when the other two take nothing, it is all that is taken. */
  lemma GreedyFirstOfThree(d: Dag, a: nat, b: nat, c: nat, s: Claims)
    requires WellFormed(d) && |s.used| == |d.adj| && a < |d.adj| && b < |d.adj| && c < |d.adj|
    requires !s.used[a] && Unclaimed(d, s.used, s.claimed, a)
    requires Greedy(d, [b, c], Grab(d, s, a)) == Pick([], Grab(d, s, a))
    ensures Greedy(d, [a, b, c], s) == Pick([a], Grab(d, s, a))
  {
    assert [a, b, c][1..] == [b, c];
  }

  /** Trying 1, 2, 0 claims node 1's tree, then skips node 2, which collides with it, and node 0, already used. */
  lemma CollideGreedy()
    ensures Greedy(CollideDag(), [1, 2, 0], Claims(NoMarks(3), {})).taken == [1]
    ensures Greedy(CollideDag(), [1, 2, 0], Claims(NoMarks(3), {})).state.used == [true, true, false]
  {
    var s0 := Claims(NoMarks(3), {});
    CollideGrab();
    CollideRest(Grab(CollideDag(), s0, 1));
    GreedyFirstOfThree(CollideDag(), 1, 2, 0, s0);
  }

  /** Of two trees spending the same output, the more valuable is claimed and the other skipped. */
  lemma CollidingRootSkipped()
    ensures TreeValues(CollideDag()) == [1, 6, 4]
    ensures Selection(CollideDag()).taken == [1]
    ensures Selection(CollideDag()).state.used == [true, true, false]
  {
    CollideValues();
    CollideOrder();
    CollideGreedy();
  }

  // ---------------------------------------------------------------------------
  // Two candidates spending the same confirmed output
  // ---------------------------------------------------------------------------

  /** A leaf's tree is the leaf alone, and it is worth the leaf's own fee. */
  lemma LeafAlone(d: Dag, x: nat)
    requires WellFormed(d) && x < |d.adj| && d.isLeaf[x]
    ensures Tree(d, x) == {x}
    ensures TreeValue(d, x) == FeeOf(d.value, {x})
  {
    assert Tree(d, x) == {x};
    var inputs := InputClaims(d, {x});
    assert inputs.Keys == {x};
    FreeOne({}, inputs, x);
    assert Occ(d, d.isLeaf, {x}) == {};
    assert LabelClaims(d, {}) == map[];
  }

  /** Two leaves are worth their own fees. */
  lemma TwoLeavesValues(d: Dag)
    requires WellFormed(d) && |d.adj| == 2 && d.isLeaf == [true, true]
    ensures TreeValues(d) == [d.value[0], d.value[1]]
  {
    LeafAlone(d, 0);
    LeafAlone(d, 1);
    TwoSum(d.value, NoMarks(2), Mark(NoMarks(2), {0}));
    TwoSum(d.value, NoMarks(2), Mark(NoMarks(2), {1}));
  }

  /** Two positive scores: both nodes are roots. */
  lemma PositiveTwo(tv: seq<int>)
    requires |tv| == 2 && tv[0] > 0 && tv[1] > 0
    ensures PositiveRoots(tv) == [0, 1]
  {
    var first := tv[..1];
    assert first[..0] == [];
    assert PositiveRoots(first) == [0];
  }

  /** Node 1 scoring above node 0 sorts first. */
  lemma SortTwo(tv: seq<int>)
    requires |tv| == 2 && tv[1] > tv[0]
    ensures SortByTreeValue([0, 1], tv) == [1, 0]
  {
    assert [0, 1][..1] == [0];
    assert [0][..0] == [];
    assert SortByTreeValue([0], tv) == [0];
    assert InsertByValue([0], 1, tv) == [1, 0];
  }

  /** Without edges nothing a node reaches can spend a claimed output. */
  lemma NoEdgesUnclaimed(d: Dag, used: seq<bool>, claimed: set<(nat, int)>, u: nat)
    requires WellFormed(d) && |used| == |d.adj| && u < |d.adj| && forall x | 0 <= x < |d.adj| :: d.adj[x] == []
    ensures Unclaimed(d, used, claimed, u)
  {
  }

  /** The claim from a node without edges marks it used and lists it, and claims nothing. */
  lemma GrabRunAlone(d: Dag, g: Grabbing, u: nat)
    requires WellFormed(d) && |g.used| == |d.adj| && |g.usedIndex| == |d.adj| && u < |d.adj| && d.adj[u] == []
    ensures GrabRun(d, g, u) == Grabbing(g.used[u := true], g.usedIndex, g.result + [u])
  {
  }

  /** The loop over roots 1, 0 of two nodes without edges claims both, node 1 first. */
  lemma TwoAloneRun(d: Dag)
    requires WellFormed(d) && d.adj == [[], []]
    ensures GreedyRun(d, [1, 0], NothingClaimed(2)).result == [1, 0]
  {
    var g0 := NothingClaimed(2);
    NoEdgesUnclaimed(d, g0.used, Pairs(g0.usedIndex), 1);
    GrabRunAlone(d, g0, 1);
    var g1 := GrabRun(d, g0, 1);
    assert [1, 0][1..] == [0];
    assert GreedyRun(d, [1, 0], g0) == GreedyRun(d, [0], g1);
    NoEdgesUnclaimed(d, g1.used, Pairs(g1.usedIndex), 0);
    GrabRunAlone(d, g1, 0);
    assert [0][1..] == [];
  }

  /**
   * Two leaves without edges, of positive fees with node 1 paying more: node 1
   * is tried first, and the selector's run lists node 1, then node 0. Nothing
   * in the selection looks at the confirmed outputs two separate trees spend,
   * so both are listed even when they spend the same one.
   */
  lemma TwoLeavesRun(d: Dag)
    requires WellFormed(d) && d.adj == [[], []] && d.isLeaf == [true, true]
    requires 0 < d.value[0] < d.value[1]
    ensures TreeValues(d) == [d.value[0], d.value[1]]
    ensures Order(d) == [1, 0]
    ensures SelectionRun(d).result == [1, 0]
  {
    TwoLeavesValues(d);
    PositiveTwo(TreeValues(d));
    SortTwo(TreeValues(d));
    TwoAloneRun(d);
  }

  /** A sweep over one valid transaction commits it. */
  lemma CommitOne(verify: SigOracle, pool: Pool, a: Tx)
    requires ValidTx(verify, pool, a)
    ensures CommitPass(verify, pool, [a]) == (Apply(pool, a), [a])
  {
    assert [a][..0] == [];
    assert CommitPass(verify, pool, []) == (pool, []);
    assert [] + [a] == [a];
  }

  /**
   * A sweep over `a` then `b`, where `a` is valid and both claim the same
   * output, which `a` does not re-create: `a` is committed and `b`, whose
   * input is then gone, is not.
   */
  lemma SharedClaimFirstWins(verify: SigOracle, pool: Pool, a: Tx, b: Tx, i: nat, j: nat)
    requires ValidTx(verify, pool, a)
    requires i < |a.inputs| && j < |b.inputs| && Claim(a.inputs[i]) == Claim(b.inputs[j])
    requires Claim(a.inputs[i]).txHash != a.hash
    ensures CommitPass(verify, pool, [a, b]).1 == [a]
  {
    assert [a, b][..1] == [a];
    CommitOne(verify, pool, a);
    var c := Claim(a.inputs[i]);
    assert c in Spent(a);
    assert c !in Apply(pool, a);
    assert !ValidTx(verify, Apply(pool, a), b);
  }

  /**
   * A sweep over a valid fresh candidate `a`, then `b` claiming one of the same
   * confirmed outputs: only `a` is committed.
   */
  lemma FreshFirstWins(verify: SigOracle, confirmed: Pool, a: Tx, b: Tx, i: nat, j: nat)
    requires ValidTx(verify, confirmed, a) && a.hash !in HashesOf(confirmed)
    requires i < |a.inputs| && j < |b.inputs| && Claim(a.inputs[i]) == Claim(b.inputs[j])
    ensures CommitPass(verify, confirmed, [a, b]).1 == [a]
  {
    var c := Claim(a.inputs[i]);
    assert c in confirmed;
    assert c.txHash in HashesOf(confirmed);
    SharedClaimFirstWins(verify, confirmed, a, b, i, j);
  }

  /** Two leaves that have no edges: the graph has none at all. */
  lemma TwoLeavesShape(d: Dag)
    requires WellFormed(d) && |d.adj| == 2 && d.isLeaf[0] && d.isLeaf[1] && NoLeafEdges(d)
    ensures d.adj == [[], []] && d.isLeaf == [true, true]
  {
  }

  /** The graph of two valid, fresh candidates: two leaves without edges, valued at their fees. */
  lemma TwoFreshGraph(verify: SigOracle, confirmed: Pool, overlay: Pool, good: seq<Tx>, d: Dag)
    requires MaxFee.BatchGraph(verify, confirmed, overlay, good, d) && FreshBatch(confirmed, good)
    requires |good| == 2 && ValidTx(verify, confirmed, good[0]) && ValidTx(verify, confirmed, good[1])
    ensures d.adj == [[], []] && d.isLeaf == [true, true]
    ensures d.value[0] == Fee(overlay, good[0]) && d.value[1] == Fee(overlay, good[1])
  {
    MaxFee.FreshLeavesAlone(verify, confirmed, overlay, good, d);
    assert d.isLeaf[0] && d.isLeaf[1];
    TwoLeavesShape(d);
  }

  /** The candidates at nodes 1, 0 of a pair: the pair swapped. */
  lemma SelectPair(good: seq<Tx>)
    requires |good| == 2
    ensures MaxFee.Select(good, [1, 0]) == [good[1], good[0]]
  {
    var r := MaxFee.Select(good, [1, 0]);
    assert r[0] == good[1] && r[1] == good[0];
  }

  /**
   * Two candidates valid on their own that spend the same confirmed output,
   * both of positive fee: the selector lists the one of higher fee first, so
   * the commit sweep keeps it and drops the other.
   */
  lemma HigherFeeWins(verify: SigOracle, confirmed: Pool, overlay: Pool, good: seq<Tx>, best: seq<nat>, d: Dag, i: nat, j: nat)
    requires MaxFee.Chosen(verify, confirmed, overlay, good, best, d) && FreshBatch(confirmed, good)
    requires |good| == 2 && ValidTx(verify, confirmed, good[0]) && ValidTx(verify, confirmed, good[1])
    requires i < |good[0].inputs| && j < |good[1].inputs| && Claim(good[0].inputs[i]) == Claim(good[1].inputs[j])
    requires 0 < Fee(overlay, good[0]) < Fee(overlay, good[1])
    ensures best == [1, 0]
    ensures CommitPass(verify, confirmed, MaxFee.Select(good, best)).1 == [good[1]]
  {
    TwoFreshGraph(verify, confirmed, overlay, good, d);
    TwoLeavesRun(d);
    SelectPair(good);
    FreshFirstWins(verify, confirmed, good[1], good[0], j, i);
  }
}
