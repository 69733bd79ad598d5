# UTXO ledger, fee-maximising selector, fork-aware chain and gossip nodes in Dafny

This project models the core of a small cryptocurrency coursework repository:

- **Ledger** (`Ledger.dfy`): the UTXO pool, the five validity conditions a
  transaction must meet against a pool, its fee, and the effect of committing a
  transaction. These are shared by every handler. `CommitPass` is one sweep over
  a batch that commits each transaction valid at its turn. Each sweep of every
  commit loop in the source is proved equal to it: the inner loop of
  `TxHandling.TxHandler.HandleTxs` keeps its pool and its new commits equal to
  `CommitPass` over the candidates seen so far, `Chain.BlockChain.Sweep` ensures
  it, and `MaxFee.MaxFeeTxHandler.CommitSelection` ensures it.
- **Fixed-point handler** (`TxHandler.dfy`, `assignment3/TxHandler.java`): a
  class holding the confirmed pool. `HandleTxs` sweeps the candidates again and
  again until a sweep commits nothing. Each sweep is one `CommitPass` from the
  pool at the sweep's start.
- **Fee-maximising handler** (`FeeGraph.dfy`, `MaxFeeTxHandler.dfy`,
  `assignment1/MaxFeeTxHandler.java`). The handler overlays the confirmed pool
  with the batch's own outputs and keeps the candidates valid against that
  overlay. It builds a dependency graph in which each edge runs from a consumer
  to a producer and is labelled with the output positions spent. It scores every
  node as the root of a tree, claims disjoint trees greedily in order of
  descending value, and lists the claimed nodes tree by tree, in the order the
  trees were claimed, each tree in post-order (producers first). It then
  commits that list in one sweep.
  - The `Graph` inner class becomes a Dafny class (`FeeGraph.dfy`). Its Java
    arrays and lists become `seq` fields that the methods reassign. Its hash
    maps and hash sets become `map` and `set` fields.
  - `FeeTrees.dfy` states what the selector computes, as functions of the
    graph's shape: the tree a root reaches (stopping at leaves), its value
    (-1 when it spends an output twice), the roots by descending value, and
    the greedy claim over them (`Selection`). `FeeGraph.dfy` adds the greedy
    loop as the graph object runs it, list included (`GreedyRun`, and
    `SelectionRun` over the ordered roots). Each method of `Graph` is proved
    equal to one of these functions, and the functions carry the properties:
    ordering, bounds, that the list is the claim from each taken root in turn
    (`SelectionRunTakes`), and that the claimed trees never spend an output
    twice.
  - `FeeCases.dfy` works three small cases through the selection:
    - a dependent whose tree outweighs its producer's is chosen with it;
    - of two dependents spending the same producer output, only the more
      valuable tree is claimed;
    - of two unlinked candidates spending the same confirmed output, with fees
      5 and 8 say, both are listed, the higher fee first, so the commit sweep
      keeps the higher fee and drops the other.
- **Chain manager** (`Chain.dfy`, `assignment3/BlockChain.java`). The ordered
  set of active tips becomes a sorted sequence. The hash-to-tip map, the
  pending pool and the creation counter are fields of a class.
  - A block is accepted when repeated sweeps over its transactions count at
    least as many commits as the block has transactions.
  - Tips more than `CUT_OFF_AGE` = 10 below the highest tip are pruned.
- **Gossip nodes** (`CompliantNode.dfy`, `CompliantNodeStupid.dfy`,
  `assignment2/`).
  - The compliant node counts how many followee proposals carried each
    transaction. It relays everything while rounds remain. In the final round it
    relays only the transactions whose count reaches the threshold set from the
    number of followees.
  - The naive node keeps and relays the union of everything it has seen.

Collaborators outside the modelled core become parameters:

- `Crypto.verifySignature` over `getRawDataToSign(i)` is a total predicate
  `verify(address, tx, i)`, held in a `const` field of each handler.
- `getHash` becomes the `hash` field of a transaction.
- `UTXOPool` is `map<UTXO, Output>`.
- `TransactionPool` is `map<Hash, Tx>`.
- Transactions in the gossip simulation are integer ids.

`TxHandling.TxHandler.GetUTXOPool` and `Chain.BlockChain.GetTransactionPool`
return the field. `StupidNodes.CompliantNodeStupid.SetFollowees` has an empty
frame, so it changes nothing.

Two behaviours of the code a reader may not expect:

- **Tie-break among the highest tips.** `compareTo` orders equal heights by
  creation time reversed (`assignment3/BlockChain.java:23-26`), and the chain
  reads `last()`. So among equally high tips the *earliest* created one is
  current, not the most recently accepted. `Chain.Highest` states this.
  `Chain.BlockChain.GetMaxHeightBlock` is proved against it.
- **Commits are counted, not transactions.** `addBlock` adds the number of
  commits of each sweep and never removes a committed transaction from later
  sweeps (`assignment3/BlockChain.java:106-122`). A valid transaction without
  inputs stays valid on every sweep. `Chain.RecommitCounted` exhibits the consequence: a
  block pairing such a transaction with one that is never valid reaches its
  size and is accepted.
  - `Chain.AcceptedCommitsAll` shows when counting is harmless: for a batch
    where every transaction has an input and fresh, identifying hashes, an
    accepted block committed every one of its transactions exactly once.

## Model

| member | source | states |
|---|---|---|
| Ledger.ValidTxFeeNonNegative | assignment1/MaxFeeTxHandler.java:51-60 | a valid transaction claims only pooled outputs and its fee is never negative |
| Ledger.CheckInputs | assignment1/MaxFeeTxHandler.java:35-52 | the input loop succeeds exactly when every claimed output is pooled, every signature verifies and no output is claimed twice; the balance is then the claimed total |
| Ledger.CheckTx | assignment1/MaxFeeTxHandler.java:29-63 | the validity check answers exactly the five conditions (present, signed, no double claim, non-negative outputs, inputs cover outputs) |
| Ledger.ValidWithoutOverlayIsValidWithOverlay | assignment1/MaxFeeTxHandler.java:39-45 | a transaction valid against the confirmed pool is valid against the overlay of batch outputs under it |
| Ledger.ApplyEffect | assignment3/TxHandler.java:75-87 | committing adds the created outputs, removes the claimed ones that it does not recreate, and leaves every other entry as it was |
| Ledger.AddOutputs | assignment3/BlockChain.java:53-59 | the output-adding loop leaves the pool overlaid with the transaction's outputs |
| Ledger.ApplyTx | assignment3/TxHandler.java:75-87 | the remove-then-add loops produce the committed pool |
| Ledger.CommitPassSound | assignment1/MaxFeeTxHandler.java:335-353 | one sweep commits a valid sequence drawn in order from the batch, and leaves the pool those commits give |
| Ledger.CommitPassQuiescent | assignment3/TxHandler.java:69-91 | a sweep that commits nothing leaves the pool as it was, and no candidate is valid against it |
| Ledger.SpentStaysSpent | assignment3/TxHandler.java:76-87 | in a valid sequence with fresh hashes, no claimed output is back in the pool at the end |
| Ledger.NoDoubleSpend | assignment3/TxHandler.java:69-91 | in a valid sequence with fresh hashes, no two committed transactions claim a common output |
| Ledger.CommitPassFresh | assignment1/MaxFeeTxHandler.java:335-353 | for a fresh batch, the transactions one sweep commits have fresh hashes |
| Ledger.CommitPassNoDoubleSpend | assignment1/MaxFeeTxHandler.java:335-353 | for a fresh batch, no two transactions one sweep commits claim a common output |
| Ledger.BatchOutputsKeys | assignment1/MaxFeeTxHandler.java:283-290 | the batch-output pool holds exactly the output positions of the batch's transactions |
| Ledger.BatchOutputsValues | assignment1/MaxFeeTxHandler.java:283-290 | when equal hashes mean equal transactions, each batch output sits under its producer's hash and position |
| TxHandling.TxHandler.constructor | assignment3/TxHandler.java:13-16 | the handler starts from the given pool |
| TxHandling.TxHandler.IsValidTx | assignment3/TxHandler.java:27-57 | the answer is exactly the five validity conditions against the handler's pool; an accepted transaction has a non-negative fee |
| TxHandling.SweepExtends | assignment3/TxHandler.java:69-91 | over a fresh batch, a whole sweep after a valid, freshly hashed accepted list drawn from the batch keeps the list valid, freshly hashed and drawn from the batch once the sweep's commits are appended, and the sweep's pool is their effect |
| TxHandling.TxHandler.HandleTxs | assignment3/TxHandler.java:64-96 | the accepted list is a valid sequence of candidates against the old pool, the new pool is its effect, no candidate is valid against the final pool, and no two accepted transactions claim a common output; each sweep of the inner loop is `CommitPass` from the pool at the sweep's start |
| FeeTrees.PositiveRootsCorrect | assignment1/MaxFeeTxHandler.java:202-209 | the roots are exactly the nodes of positive tree value, each once, in ascending index order |
| FeeTrees.PositiveRootsNone | assignment1/MaxFeeTxHandler.java:202-209 | without a positive tree value there is no root |
| FeeTrees.InsertByValue | assignment1/MaxFeeTxHandler.java:211-217 | inserting a root adds it and loses no other |
| FeeTrees.SortByTreeValue | assignment1/MaxFeeTxHandler.java:211-217 | sorting the roots is a permutation of them |
| FeeTrees.InsertByValueCorrect | assignment1/MaxFeeTxHandler.java:211-217 | inserting a root whose index exceeds every sorted root's, after every root of at least its value, keeps the order |
| FeeTrees.SortByTreeValueCorrect | assignment1/MaxFeeTxHandler.java:211-217 | roots collected in ascending index come out by descending tree value, ties by ascending index, and as a permutation |
| FeeTrees.TreeValueBounds | assignment1/MaxFeeTxHandler.java:164-172 | with fees never negative, a tree's value is -1 or lies between its root's fee and the total of all fees |
| FeeTrees.ZeroFeesNoValue | assignment1/MaxFeeTxHandler.java:164-172 | with every fee zero no tree has a positive value |
| FeeTrees.OrderRoots | assignment1/MaxFeeTxHandler.java:201-217 | a node is in the selector's order exactly when its tree value is positive |
| FeeTrees.GreedySound | assignment1/MaxFeeTxHandler.java:219-228 | when no root's reach spends an output twice, the greedy claim keeps the claims sound: used nodes closed, claimed pairs exactly the spends of the edges leaving them, no output spent by two edges |
| FeeTrees.SelectionSound | assignment1/MaxFeeTxHandler.java:201-231 | when no leaf has an edge, the selection never spends one output of a producer twice, and its claimed pairs are exactly what the edges leaving the claimed nodes spend |
| FeeGraph.Graph.constructor | assignment1/MaxFeeTxHandler.java:100-131 | a graph of n nodes with no edges, no labels, zero fees, no leaves and nothing visited, used or claimed |
| FeeGraph.Graph.AddUsedInput | assignment1/MaxFeeTxHandler.java:133-135 | adds one confirmed output to one node's set and changes no other node |
| FeeGraph.Graph.AddEdge | assignment1/MaxFeeTxHandler.java:233-244 | appends the producer to the consumer's adjacency list and unions the given positions into that edge's labels |
| FeeGraph.Graph.SetValue | assignment1/MaxFeeTxHandler.java:246-248 | sets one node's fee and no other |
| FeeGraph.Graph.SetLeaf | assignment1/MaxFeeTxHandler.java:250-252 | marks one node as a leaf and no other |
| FeeGraph.Graph.DfsGetValue | assignment1/MaxFeeTxHandler.java:137-162 | the answer and the marks it leaves are those of the value search `ScoreRun` from the old marks |
| FeeGraph.ScoreRunSound | assignment1/MaxFeeTxHandler.java:137-162 | from an unvisited node over marks closed below it, the search answers -1 exactly when the new part of its tree spends a confirmed output or a producer's output twice; otherwise it visits exactly that part, records its spends, and answers the sum of the fees it newly visits |
| FeeGraph.ScoreFromNothing | assignment1/MaxFeeTxHandler.java:164-172 | a search from cleared marks that ends as the value search promises answers the tree value: -1 when the tree, stopping at leaves, spends an output twice, else the fees of the nodes it reaches |
| FeeGraph.Graph.GetTreeValue | assignment1/MaxFeeTxHandler.java:164-172 | the answer is the tree value of the root, and the graph's shape is unchanged |
| FeeGraph.Graph.ScoreRoots | assignment1/MaxFeeTxHandler.java:202-209 | the scores are the tree values of every node, and the roots are exactly the positive ones in ascending index order |
| FeeGraph.Graph.CheckUnused | assignment1/MaxFeeTxHandler.java:174-187 | succeeds exactly when no edge that leaves an unused node reached from the node and enters a used node spends an output already claimed |
| FeeGraph.Graph.CheckUnusedFrom | assignment1/MaxFeeTxHandler.java:175-186 | the same, for the successors from position k on |
| FeeGraph.Graph.DfsGrab | assignment1/MaxFeeTxHandler.java:189-199 | the marks and the list it leaves are those of the claim `GrabRun` from the old marks and list |
| FeeGraph.GrabRunSound | assignment1/MaxFeeTxHandler.java:189-199 | from an unused node over marks closed below it, the claim uses exactly what it reaches, claims exactly the edges leaving the newly used nodes, and appends those nodes once each, producers first, ending with the node |
| FeeGraph.ClaimedIsGrab | assignment1/MaxFeeTxHandler.java:189-199 | a finished claim is the grab: everything reached becomes used and every edge leaving a newly used node is claimed |
| FeeGraph.GrabRunIsGrab | assignment1/MaxFeeTxHandler.java:189-199 | claiming from an unused root over closed, listed marks is the grab, and leaves the marks closed and listed |
| FeeGraph.GreedyStep | assignment1/MaxFeeTxHandler.java:224-227 | one root of the greedy claim is grabbed when unused and unclaimed, and passed over otherwise |
| FeeGraph.GreedyGrabs | assignment1/MaxFeeTxHandler.java:224-227 | claiming from a root that is unused and unclaimed keeps the loop on course to the greedy claim |
| FeeGraph.GreedyPasses | assignment1/MaxFeeTxHandler.java:224-227 | passing over a used or claimed root keeps the loop on course to the greedy claim |
| FeeGraph.GreedyRunTakes | assignment1/MaxFeeTxHandler.java:219-228 | over closed, listed marks, the loop over the roots is the claim from each root the greedy selection takes, in the order taken, and its marks are the selection's claims |
| FeeGraph.SelectionRunTakes | assignment1/MaxFeeTxHandler.java:201-231 | the selector's list is the claim from each root `Selection` takes, one after another, each appending its newly used nodes; its marks are the selection's claims |
| FeeGraph.Graph.ClaimRoots | assignment1/MaxFeeTxHandler.java:219-228 | from nothing used and nothing claimed, the marks, claims and list are exactly the loop's run `GreedyRun` over the roots in order; the marks are the greedy claim over them; the list holds exactly the used nodes, each once, producers first; the shape is unchanged |
| FeeGraph.SelectionEmpty | assignment1/MaxFeeTxHandler.java:201-231 | with no node of positive tree value the selection lists nothing |
| FeeGraph.Graph.GetMaxDisjointTrees | assignment1/MaxFeeTxHandler.java:201-231 | the marks, claims and list are exactly the selector's run `SelectionRun` (the loop over the positive roots by descending value); the marks are the selection; the list holds exactly the claimed nodes, each once, producers first; it is empty when no tree has positive value |
| FeeCases.ChainBeatsParts | assignment1/MaxFeeTxHandler.java:201-231 | a producer of fee 3 and its dependent of fee 2: the dependent's tree is worth 5 and goes first, and the selection takes that one tree, claiming both nodes |
| FeeCases.CollidingRootSkipped | assignment1/MaxFeeTxHandler.java:201-231 | two dependents of fees 5 and 3 spend the same output of a producer of fee 1: the trees are worth 1, 6 and 4, the 6 is taken, and the 4 is skipped because it would spend the claimed output again, leaving its root unused |
| FeeCases.TwoLeavesRun | assignment1/MaxFeeTxHandler.java:201-231 | two leaves without edges of positive fees, node 1 paying more: they are worth their fees, node 1 is tried first, and the selector lists node 1 then node 0 |
| FeeCases.SharedClaimFirstWins | assignment1/MaxFeeTxHandler.java:335-353 | a sweep over a valid transaction and then another claiming one of the same outputs, which the first does not re-create, commits only the first |
| FeeCases.HigherFeeWins | assignment1/MaxFeeTxHandler.java:272-358 | two fresh candidates each valid against the confirmed pool that spend the same confirmed output, of positive fees with the second higher: the selector lists the second first, and the commit sweep keeps only it |
| MaxFee.LinkIndexesMembers | assignment1/MaxFeeTxHandler.java:255-265 | the linked positions are exactly the output positions of the producer the consumer claims, non-empty exactly when it claims one |
| MaxFee.LinkedIffSpends | assignment1/MaxFeeTxHandler.java:255-265 | the linked list is non-empty exactly when the consumer spends an output of the producer |
| MaxFee.Linked | assignment1/MaxFeeTxHandler.java:255-265 | the loop returns the claimed positions of the producer's hash, in input order |
| MaxFee.GoodCorrect | assignment1/MaxFeeTxHandler.java:292-298 | the good list is an ordered sub-list of the batch holding exactly the candidates valid against the overlay |
| MaxFee.ConfirmedClaimsMembers | assignment1/MaxFeeTxHandler.java:303-312 | a node's confirmed inputs are exactly the confirmed outputs its inputs claim |
| MaxFee.ProducersMembers | assignment1/MaxFeeTxHandler.java:314-321 | a node's edges go exactly to the good candidates whose outputs it spends |
| MaxFee.EdgesDone | assignment1/MaxFeeTxHandler.java:314-321 | the finished double loop gives every node its producers as adjacency and every edge its linked positions as labels |
| MaxFee.ConfirmedProducers | assignment1/MaxFeeTxHandler.java:303-321 | a transaction whose inputs are all confirmed has edges only to producers whose hash names a confirmed output |
| MaxFee.LeafProducers | assignment1/MaxFeeTxHandler.java:314-328 | a leaf of the graph has edges only to producers whose hash names a confirmed output |
| MaxFee.FreshLeavesAlone | assignment1/MaxFeeTxHandler.java:314-328 | in the graph of a fresh batch no leaf has an edge |
| MaxFee.SelectionClaimsOnce | assignment1/MaxFeeTxHandler.java:201-231 | over a fresh batch the selection never spends one output of a producer twice |
| MaxFee.CommitOutcome | assignment1/MaxFeeTxHandler.java:335-353 | a sweep over candidates drawn from a batch commits a valid sequence, in order, whose effect is its pool; for a fresh batch no two commits claim a common output |
| MaxFee.MaxFeeTxHandler.constructor | assignment1/MaxFeeTxHandler.java:14-18 | the handler starts from the given pool and an empty overlay |
| MaxFee.MaxFeeTxHandler.IsValidTxWith | assignment1/MaxFeeTxHandler.java:29-63 | the answer is the five conditions against the overlay when the unspent check is disabled, and against the confirmed pool otherwise; the confirmed answer implies the overlay answer |
| MaxFee.MaxFeeTxHandler.IsValidTx | assignment1/MaxFeeTxHandler.java:65-67 | the one-argument check is validity against the confirmed pool |
| MaxFee.MaxFeeTxHandler.GetFee | assignment1/MaxFeeTxHandler.java:69-84 | the loop's balance is the fee of the transaction against the overlay |
| MaxFee.MaxFeeTxHandler.AddConfirmedInputs | assignment1/MaxFeeTxHandler.java:303-312 | each node's confirmed-input set is exactly the confirmed outputs its transaction claims |
| MaxFee.MaxFeeTxHandler.AddDependencyEdges | assignment1/MaxFeeTxHandler.java:314-321 | every node gets an edge to each producer it spends from, in index order, labelled with the positions it spends |
| MaxFee.MaxFeeTxHandler.AddRowEdges | assignment1/MaxFeeTxHandler.java:315-320 | one row of the double loop adds that node's edges |
| MaxFee.MaxFeeTxHandler.AddEdgeIfLinked | assignment1/MaxFeeTxHandler.java:316-319 | one pair adds an edge exactly when the linked list is non-empty |
| MaxFee.MaxFeeTxHandler.SetFeesAndLeaves | assignment1/MaxFeeTxHandler.java:323-328 | each node's value is its fee against the overlay, and it is a leaf exactly when valid against the confirmed pool |
| MaxFee.MaxFeeTxHandler.PrepareBatch | assignment1/MaxFeeTxHandler.java:283-298 | the overlay holds the batch's outputs, and the good list is the batch filtered by validity against the overlay |
| MaxFee.MaxFeeTxHandler.BuildGraph | assignment1/MaxFeeTxHandler.java:300-328 | the fresh graph has the good list's dependency edges and labels, confirmed inputs, fees and leaf marks, with nothing used |
| MaxFee.MaxFeeTxHandler.CommitSelection | assignment1/MaxFeeTxHandler.java:335-353 | committing the selected nodes is one sweep over them against the confirmed pool |
| MaxFee.MaxFeeTxHandler.SelectNodes | assignment1/MaxFeeTxHandler.java:301-332 | the nodes chosen are the list of the selector's run over the graph of the good candidates: the selection's nodes, once each, tree by tree in the order the roots were taken, producers first; none when every good fee is zero |
| MaxFee.MaxFeeTxHandler.ChooseNodes | assignment1/MaxFeeTxHandler.java:282-332 | the overlay holds the batch outputs, the good list is the batch filtered by validity against it, and the chosen nodes are the list of the selector's run over the graph built from the good list; none when every good fee is zero |
| MaxFee.MaxFeeTxHandler.HandleTxs | assignment1/MaxFeeTxHandler.java:272-358 | the chosen nodes are the list of the selector's run over the good candidates' graph, in the order the trees were taken; the result is the commit sweep over them: a valid sequence against the old pool drawn in order from the chosen candidates, the new pool its effect; empty when every good fee is zero; for a fresh batch no two results claim a common output |
| Chain.IntCompare | assignment3/BlockChain.java:24-25 | negative, zero or positive exactly as the first integer is below, equal to or above the second |
| Chain.Compare | assignment3/BlockChain.java:23-26 | negative exactly when the first tip is lower, or as high and created later; zero exactly when height and stamp agree |
| Chain.InsertNew | assignment3/BlockChain.java:126 | adding a tip with a new key keeps the tips ordered and adds exactly that tip |
| Chain.InsertTaken | assignment3/BlockChain.java:126 | adding a tip whose key is taken leaves the tips as they were |
| Chain.LastHighest | assignment3/BlockChain.java:70-72 | the last ordered tip is the highest, and the earliest created among the highest |
| Chain.PruneKeeps | assignment3/BlockChain.java:61-67 | pruning keeps exactly the tips at or above the floor, in order, with the highest tip still last |
| Chain.PruneForgets | assignment3/BlockChain.java:61-67 | pruning forgets exactly the hashes of the dropped tips |
| Chain.SettleSound | assignment3/BlockChain.java:104-120 | the repeated sweeps commit a valid sequence against the parent's pool |
| Chain.SettleMembers | assignment3/BlockChain.java:104-120 | every commit event is one of the block's transactions |
| Chain.SettleShort | assignment3/BlockChain.java:104-120 | when the events fall short of the block size, no block transaction is valid against the pool they leave |
| Chain.SettleFresh | assignment3/BlockChain.java:104-120 | for a fresh batch, the committed transactions have fresh hashes |
| Chain.AcceptedCommitsAll | assignment3/BlockChain.java:104-122 | for a fresh batch, an accepted block committed each of its transactions exactly once, in a valid order |
| Chain.EmptyTxCommits | assignment3/TxHandler.java:27-57 | a transaction without inputs or outputs is valid against any pool and leaves it unchanged |
| Chain.SweepFree | assignment3/BlockChain.java:107-116 | on an empty pool, a sweep over a free transaction and an orphan commits only the free one |
| Chain.RecommitCounted | assignment3/BlockChain.java:106-122 | a block of a free transaction and an orphan counts two commit events though the orphan is never committed |
| Chain.GenesisOutputs | assignment3/BlockChain.java:38-44 | the genesis pool holds exactly the outputs of the genesis transactions and the coinbase, with the coinbase's values |
| Chain.BuildGenesisPool | assignment3/BlockChain.java:39-43 | the loop over the genesis transactions, then the coinbase, builds the genesis pool, whose contents `Chain.GenesisOutputs` states |
| Chain.AddedTipKept | assignment3/BlockChain.java:125-133 | adding a tip one above an active tip and pruning keeps the tips ordered, keeps the new tip, and keeps exactly the old tips and the new one that reach the new floor |
| Chain.BlockChain.constructor | assignment3/BlockChain.java:38-51 | the chain holds the genesis tip alone, at height 0 and stamp 0 over the genesis pool, with no pending transactions |
| Chain.BlockChain.GetMaxHeightBlock | assignment3/BlockChain.java:70-72 | the block of the highest tip, the earliest created among the highest |
| Chain.BlockChain.GetMaxHeightUTXOPool | assignment3/BlockChain.java:75-77 | the pool of that same tip |
| Chain.BlockChain.AddTransaction | assignment3/BlockChain.java:139-141 | the pending pool gains the transaction under its hash, replacing any with the same hash |
| Chain.BlockChain.Trim | assignment3/BlockChain.java:61-67 | drops the lowest tips and their hashes until none lies more than the cut-off below the highest |
| Chain.BlockChain.Sweep | assignment3/BlockChain.java:107-116 | one pass over the block's transactions is one sweep, and its count is the number it committed |
| Chain.BlockChain.CommitEvents | assignment3/BlockChain.java:104-120 | the counted events and the working pool are those of the repeated sweeps |
| Chain.BlockChain.AddBlock | assignment3/BlockChain.java:96-136 | accepts exactly when the parent is active and the events reach the block size; a rejection changes nothing; an acceptance stamps the next tip over the parent's pool after the events and the coinbase, removes the block's transactions from the pending pool and prunes; no tip is ever left more than the cut-off below the highest |
| Chain.BlockChain.Extend | assignment3/BlockChain.java:125-133 | an accepted tip is inserted and mapped, the stamp advances, the block's transactions leave the pending pool, the tips are pruned below the new floor, and no tip is left more than the cut-off below the highest |
| Chain.BlockChain.Attach | assignment3/BlockChain.java:125-127 | the new tip joins the ordered tips and the hash map, and the stamp advances |
| Chain.BlockChain.RemovePending | assignment3/BlockChain.java:129-131 | the pending pool loses exactly the block's transaction hashes |
| CompliantNodes.TruncDiv | assignment2/CompliantNode.java:35 | division truncating toward zero: the remainder has the dividend's sign and is smaller than the divisor |
| CompliantNodes.CountTrue | assignment2/CompliantNode.java:29-33 | the number of true entries is zero exactly when none is true, and the length exactly when all are true |
| CompliantNodes.CompliantNode.constructor | assignment2/CompliantNode.java:19-26 | the given rounds, a zero threshold and no transactions seen |
| CompliantNodes.CompliantNode.SetFollowees | assignment2/CompliantNode.java:28-37 | the threshold becomes (old threshold plus the followee count) times the rounds, divided by four with truncation |
| CompliantNodes.CompliantNode.SetPendingTransaction | assignment2/CompliantNode.java:39-45 | unseen transactions are added with count zero, and seen ones keep their counts |
| CompliantNodes.CompliantNode.SendToFollowers | assignment2/CompliantNode.java:47-60 | in the last round, exactly the transactions whose count reaches the threshold, with nothing changed; before it, every transaction seen and one round fewer; the round count never becomes negative |
| CompliantNodes.CompliantNode.ReceiveFromFollowees | assignment2/CompliantNode.java:62-69 | each transaction's count rises by exactly the number of proposals carrying it, starting from zero when unseen; no transaction is dropped |
| StupidNodes.CompliantNodeStupid.constructor | assignment2/CompliantNodeStupid.java:8-10 | no transactions seen |
| StupidNodes.CompliantNodeStupid.SetPendingTransaction | assignment2/CompliantNodeStupid.java:15-19 | the seen set becomes its union with the given transactions |
| StupidNodes.CompliantNodeStupid.SendToFollowers | assignment2/CompliantNodeStupid.java:21-23 | relays the seen set and changes nothing |
| StupidNodes.CompliantNodeStupid.ReceiveFromFollowees | assignment2/CompliantNodeStupid.java:25-29 | the seen set becomes its union with the proposed transactions |

## Left out

- The signature check and the signing payload are an uninterpreted predicate. No cryptography is modelled.
- Hashes are opaque integers. Digests and byte encodings are not modelled.
- Output values and fees are integers, not `double`. No rounding is modelled.
- Java `int` overflow is not modelled for the tip stamp, the commit count, or `lowerbound * numRounds` in the gossip node. All are unbounded integers.
- `Transaction`, `Block`, `UTXOPool`, `TransactionPool` and the gossip `Candidate` are value types.
- Live views are not modelled as aliases. Java returns a live object from `getUTXOPool`, `getTransactionPool`, and `sendToFollowers` of both nodes (a key-set view or the set itself). The model returns values, so later mutations through those references are not captured.
- MaxFee.MaxFeeTxHandler.HandleTxs: a `null` batch, which the source answers with `null`, cannot occur.
- MaxFee.MaxFeeTxHandler.HandleTxs: requires a ghost depth map under which every spend goes to a strictly shallower producer.
  - Hash links between real transactions are acyclic. The tree-value search and the claim stop at nodes already `visited` or `used` (`assignment1/MaxFeeTxHandler.java:155`, `:195`), but the unused check (`assignment1/MaxFeeTxHandler.java:174-186`) has no guard and would recurse forever on a cycle of unused nodes. The depth map is what makes every search of the model terminate.
  - The no-double-spend guarantee is stated only for fresh batches: every candidate has an input, no candidate hash names a confirmed output, and equal hashes mean equal transactions.
- TxHandling.TxHandler.HandleTxs: requires every candidate to have an input, equal hashes to mean equal transactions, and no candidate hash to name a pooled output.
  - A valid transaction without inputs stays valid on every sweep, so the source loop does not end. With hashes that are not content-derived, two candidates that each re-create the other's claimed output also keep the loop going.
  - The last condition also excludes a batch that re-submits an already committed transaction whose outputs are still pooled. The source handles that batch: the transaction has lost its inputs and is invalid on every sweep. The model excludes it only because its termination argument counts commits against fresh hashes.
- FeeGraph.Graph.GetMaxDisjointTrees: requires that no node is used yet. The source never clears `used`, so a second call on the same graph would start from the first call's claims; the handler calls it once on a freshly built graph.
- FeeTrees.SelectionSound: the guarantee that no output is spent twice is stated only when no leaf has an edge, which `MaxFee.FreshLeavesAlone` establishes for fresh batches. The value search stops at leaves, so an edge out of a leaf is neither scored nor checked.
- FeeGraph.Graph.DfsGetValue: the hash-set loops over confirmed inputs and edge labels are set operations. On the early `-1` exits the source leaves those sets partly updated, while the model leaves them untouched. Both are cleared before they are read again, so no answer differs.
- The hash-set iteration order of the source's loops is not modelled; the gossip nodes visit their input sets in an arbitrary order.
- The gossip simulation, the malicious nodes and the followee graph generator are not part of this model.
- The constructors' probability parameters (graph, malice and distribution) are unused by both nodes and are dropped. So is the round count of the naive node.
