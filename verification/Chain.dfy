/**
 * The fork-aware chain manager. It keeps the active tips of every branch,
 * ordered by height and, at equal height, newer first (so the last tip is the
 * earliest created of the highest ones); a map from block hash
 * to tip; a pool of pending transactions; and a counter that stamps each new
 * tip. A block is accepted on top of any active tip when repeated sweeps over
 * its transactions commit at least as many transactions as the block holds;
 * tips more than `CUT_OFF_AGE` below the highest tip are then forgotten.
 */
module Chain {
  import opened Ledger
  import opened TxHandling

  const CUT_OFF_AGE: int := 10

  /** A block: its hash, its parent's hash (absent for a malformed block), the coinbase and the other transactions. */
  datatype Block = Block(hash: Hash, prevBlockHash: Option<Hash>, coinbase: Tx, txs: seq<Tx>)

  /** A tip: the block, the pool after it, its height and the stamp it was added with. */
  datatype ActiveBlock = ActiveBlock(block: Block, pool: Pool, height: int, creationTime: int)

  // ---------------------------------------------------------------------------
  // Order of the tips
  // ---------------------------------------------------------------------------

  /** Tip `a` sorts before tip `b`: lower, or as high and created later. */
  predicate Below(a: ActiveBlock, b: ActiveBlock)
  {
    a.height < b.height || (a.height == b.height && a.creationTime > b.creationTime)
  }

  /** Three-way comparison of two integers, as the standard library gives it. */
  function IntCompare(x: int, y: int): (c: int)
    ensures c < 0 <==> x < y
    ensures c == 0 <==> x == y
    ensures -1 <= c <= 1
  {
    if x < y then -1 else if x == y then 0 else 1
  }

  /**
   * The tip order: by height, then by creation stamp reversed. It is negative
   * exactly when `a` sorts before `b`, positive exactly when `b` sorts before
   * `a`, and zero exactly when height and stamp agree.
   */
  function Compare(a: ActiveBlock, b: ActiveBlock): (c: int)
    ensures c < 0 <==> Below(a, b)
    ensures c > 0 <==> Below(b, a)
    ensures c == 0 <==> a.height == b.height && a.creationTime == b.creationTime
  {
    if a.height != b.height then IntCompare(a.height, b.height)
    else -IntCompare(a.creationTime, b.creationTime)
  }

  /** The tips are strictly ascending in the tip order. */
  predicate Sorted(tips: seq<ActiveBlock>)
  {
    forall i, j | 0 <= i < j < |tips| :: Below(tips[i], tips[j])
  }

  /** No tip compares equal to `b`. */
  predicate NewKey(tips: seq<ActiveBlock>, b: ActiveBlock)
  {
    forall i | 0 <= i < |tips| :: Compare(tips[i], b) != 0
  }

  /**
   * Adding `b` to the ordered tips: it goes in its place in the order, unless a
   * tip comparing equal to it is already present, which the ordered set keeps
   * instead.
   */
  function Insert(tips: seq<ActiveBlock>, b: ActiveBlock): seq<ActiveBlock>
  {
    if tips == [] then [b]
    else if Compare(b, tips[0]) < 0 then [b] + tips
    else if Compare(b, tips[0]) > 0 then [tips[0]] + Insert(tips[1..], b)
    else tips
  }

  /** Adding a tip with a new key keeps the tips ordered and adds exactly that tip. */
  lemma {:induction false} InsertNew(tips: seq<ActiveBlock>, b: ActiveBlock)
    requires Sorted(tips) && NewKey(tips, b)
    ensures var r := Insert(tips, b);
      Sorted(r) && |r| == |tips| + 1 && forall x :: x in r <==> x in tips || x == b
  {
    if tips != [] {
      var c := Compare(b, tips[0]);
      if c > 0 {
        var rest := tips[1..];
        InsertNew(rest, b);
        var r := [tips[0]] + Insert(rest, b);
        assert forall x | x in tips :: x == tips[0] || x in rest;
        forall j | 0 < j < |r|
          ensures Below(r[0], r[j])
        {
          assert r[j] in Insert(rest, b);
        }
      } else {
        assert c != 0;
      }
    }
  }

  /** Adding a tip whose key is taken leaves the tips as they were. */
  lemma {:induction false} InsertTaken(tips: seq<ActiveBlock>, b: ActiveBlock, k: nat)
    requires Sorted(tips) && k < |tips| && Compare(tips[k], b) == 0
    ensures Insert(tips, b) == tips
  {
    if Compare(b, tips[0]) > 0 {
      assert k > 0;
      InsertTaken(tips[1..], b, k - 1);
    } else if Compare(b, tips[0]) < 0 {
      assert false;
    }
  }

  /** The highest tip, and at the top height the earliest created. */
  predicate Highest(tips: seq<ActiveBlock>, t: ActiveBlock)
  {
    t in tips && forall u | u in tips :: u.height < t.height || (u.height == t.height && u.creationTime >= t.creationTime)
  }

  /** The last of the ordered tips is the highest. */
  lemma LastHighest(tips: seq<ActiveBlock>)
    requires tips != [] && Sorted(tips)
    ensures Highest(tips, tips[|tips| - 1])
  {
    forall u | u in tips
      ensures u.height < tips[|tips| - 1].height || (u.height == tips[|tips| - 1].height && u.creationTime >= tips[|tips| - 1].creationTime)
    {
      var i :| 0 <= i < |tips| && tips[i] == u;
      if i < |tips| - 1 {
        assert Below(tips[i], tips[|tips| - 1]);
      }
    }
  }

  // ---------------------------------------------------------------------------
  // Forgetting old tips
  // ---------------------------------------------------------------------------

  /** Tips lower than this are forgotten: `CUT_OFF_AGE` below the highest tip. */
  function Floor(tips: seq<ActiveBlock>): int
    requires tips != []
  {
    tips[|tips| - 1].height - CUT_OFF_AGE
  }

  /** Drops tips from the front while the first lies below `floor`, forgetting each one's hash. */
  function Prune(tips: seq<ActiveBlock>, byHash: map<Hash, ActiveBlock>, floor: int): (seq<ActiveBlock>, map<Hash, ActiveBlock>)
    decreases |tips|
  {
    if tips != [] && tips[0].height < floor then Prune(tips[1..], byHash - {tips[0].block.hash}, floor)
    else (tips, byHash)
  }

  /** Hashes of the tips below `floor`. */
  function HashesBelow(tips: seq<ActiveBlock>, floor: int): set<Hash>
  {
    set i | 0 <= i < |tips| && tips[i].height < floor :: tips[i].block.hash
  }

  /** The hashes below `floor` are the first tip's, when it is below, and those of the rest. */
  lemma HashesBelowCons(tips: seq<ActiveBlock>, floor: int)
    requires tips != []
    ensures HashesBelow(tips, floor) ==
      (if tips[0].height < floor then {tips[0].block.hash} else {}) + HashesBelow(tips[1..], floor)
  {
    var rest := tips[1..];
    forall h | h in HashesBelow(tips, floor)
      ensures h in (if tips[0].height < floor then {tips[0].block.hash} else {}) + HashesBelow(rest, floor)
    {
      var i :| 0 <= i < |tips| && tips[i].height < floor && tips[i].block.hash == h;
      if i > 0 {
        assert rest[i - 1] == tips[i];
      }
    }
    forall h | h in HashesBelow(rest, floor)
      ensures h in HashesBelow(tips, floor)
    {
      var i :| 0 <= i < |rest| && rest[i].height < floor && rest[i].block.hash == h;
      assert tips[i + 1] == rest[i];
    }
  }

  /** When the first of the ordered tips reaches `floor`, they all do. */
  lemma AllReach(tips: seq<ActiveBlock>, floor: int)
    requires tips != [] && Sorted(tips) && tips[0].height >= floor
    ensures forall x | x in tips :: x.height >= floor
    ensures HashesBelow(tips, floor) == {}
  {
    forall x | x in tips
      ensures x.height >= floor
    {
      var i :| 0 <= i < |tips| && tips[i] == x;
      if i > 0 {
        assert Below(tips[0], tips[i]);
      }
    }
  }

  /**
   * On ordered tips whose highest reaches `floor`, pruning keeps exactly the
   * tips at or above `floor`, in order, and keeps the highest tip last.
   */
  lemma {:induction false} PruneKeeps(tips: seq<ActiveBlock>, byHash: map<Hash, ActiveBlock>, floor: int)
    requires tips != [] && Sorted(tips) && tips[|tips| - 1].height >= floor
    ensures var r := Prune(tips, byHash, floor).0;
      && r != [] && Sorted(r) && r[|r| - 1] == tips[|tips| - 1]
      && (forall x :: x in r <==> x in tips && x.height >= floor)
    decreases |tips|
  {
    if tips[0].height < floor {
      var rest := tips[1..];
      PruneKeeps(rest, byHash - {tips[0].block.hash}, floor);
      assert forall x | x in tips :: x == tips[0] || x in rest;
    } else {
      AllReach(tips, floor);
    }
  }

  /** Pruning ordered tips forgets exactly the hashes of the dropped tips. */
  lemma {:induction false} PruneForgets(tips: seq<ActiveBlock>, byHash: map<Hash, ActiveBlock>, floor: int)
    requires Sorted(tips)
    ensures Prune(tips, byHash, floor).1 == byHash - HashesBelow(tips, floor)
    decreases |tips|
  {
    if tips != [] {
      if tips[0].height < floor {
        PruneForgets(tips[1..], byHash - {tips[0].block.hash}, floor);
        HashesBelowCons(tips, floor);
      } else {
        AllReach(tips, floor);
      }
    }
  }

  // ---------------------------------------------------------------------------
  // Accepting a block
  // ---------------------------------------------------------------------------

  /**
   * The commit events of the repeated sweeps over a block's transactions,
   * starting from the parent's pool after `done`: sweeps repeat until one
   * commits nothing or the events reach the number of transactions.
   */
  function Settle(verify: SigOracle, pool: Pool, txs: seq<Tx>, done: seq<Tx>): seq<Tx>
    decreases |txs| - |done|
  {
    var swept := CommitPass(verify, PoolAfter(pool, done), txs).1;
    if swept == [] then done
    else if |done| + |swept| >= |txs| then done + swept
    else Settle(verify, pool, txs, done + swept)
  }

  /**
   * One sweep after `done` extends a valid sequence by the transactions it
   * commits, all drawn from `txs`, and leaves the pool their effect gives.
   */
  lemma PassExtends(verify: SigOracle, pool: Pool, txs: seq<Tx>, done: seq<Tx>)
    requires ValidSequence(verify, pool, done)
    ensures var r := CommitPass(verify, PoolAfter(pool, done), txs);
      && ValidSequence(verify, pool, done + r.1)
      && r.0 == PoolAfter(pool, done + r.1)
      && (forall x | x in r.1 :: x in txs)
  {
    var r := CommitPass(verify, PoolAfter(pool, done), txs);
    CommitPassSound(verify, PoolAfter(pool, done), txs);
    SubseqMembers(r.1, txs);
    PoolAfterConcat(pool, done, r.1);
    ValidSequenceConcat(verify, pool, done, r.1);
  }

  /** Every commit event was valid against the pool its predecessors left. */
  lemma {:induction false} SettleSound(verify: SigOracle, pool: Pool, txs: seq<Tx>, done: seq<Tx>)
    requires ValidSequence(verify, pool, done)
    ensures ValidSequence(verify, pool, Settle(verify, pool, txs, done))
    decreases |txs| - |done|
  {
    var swept := CommitPass(verify, PoolAfter(pool, done), txs).1;
    PassExtends(verify, pool, txs, done);
    if swept != [] && |done| + |swept| < |txs| {
      SettleSound(verify, pool, txs, done + swept);
    }
  }

  /** Every commit event is a block transaction, when those of `done` are. */
  lemma {:induction false} SettleMembers(verify: SigOracle, pool: Pool, txs: seq<Tx>, done: seq<Tx>)
    requires ValidSequence(verify, pool, done)
    requires forall x | x in done :: x in txs
    ensures forall x | x in Settle(verify, pool, txs, done) :: x in txs
    decreases |txs| - |done|
  {
    var swept := CommitPass(verify, PoolAfter(pool, done), txs).1;
    PassExtends(verify, pool, txs, done);
    if swept != [] {
      assert forall x | x in done + swept :: x in done || x in swept;
      if |done| + |swept| < |txs| {
        SettleMembers(verify, pool, txs, done + swept);
      }
    }
  }

  /** When the events fall short of the block size, the last sweep found no block transaction valid. */
  lemma {:induction false} SettleShort(verify: SigOracle, pool: Pool, txs: seq<Tx>, done: seq<Tx>)
    requires ValidSequence(verify, pool, done)
    ensures var s := Settle(verify, pool, txs, done);
      |s| < |txs| ==> forall i | 0 <= i < |txs| :: !ValidTx(verify, PoolAfter(pool, s), txs[i])
    decreases |txs| - |done|
  {
    var swept := CommitPass(verify, PoolAfter(pool, done), txs).1;
    if swept == [] {
      CommitPassQuiescent(verify, PoolAfter(pool, done), txs);
    } else if |done| + |swept| < |txs| {
      PassExtends(verify, pool, txs, done);
      SettleShort(verify, pool, txs, done + swept);
    }
  }

  /** One sweep over a fresh batch after a freshly hashed valid `done` drawn from it keeps all three so. */
  lemma FreshSweep(verify: SigOracle, pool: Pool, txs: seq<Tx>, done: seq<Tx>)
    requires FreshBatch(pool, txs)
    requires ValidSequence(verify, pool, done) && FreshHashes(pool, done)
    requires forall i | 0 <= i < |done| :: done[i] in txs
    ensures var d := done + CommitPass(verify, PoolAfter(pool, done), txs).1;
      && ValidSequence(verify, pool, d) && FreshHashes(pool, d)
      && forall i | 0 <= i < |d| :: d[i] in txs
  {
    CommitPassFreshAfter(verify, pool, txs, done, txs);
    SweepMembers(verify, PoolAfter(pool, done), txs, done);
  }

  /** A sweep over `txs` after `done` drawn from `txs` leaves every event drawn from `txs`. */
  lemma SweepMembers(verify: SigOracle, start: Pool, txs: seq<Tx>, done: seq<Tx>)
    requires forall i | 0 <= i < |done| :: done[i] in txs
    ensures var d := done + CommitPass(verify, start, txs).1;
      forall i | 0 <= i < |d| :: d[i] in txs
  {
    var swept := CommitPass(verify, start, txs).1;
    CommitPassSound(verify, start, txs);
    SubseqMembers(swept, txs);
    var d := done + swept;
    forall i | 0 <= i < |d|
      ensures d[i] in txs
    {
      if i >= |done| {
        assert d[i] == swept[i - |done|];
      }
    }
  }

  /** The commit events over a fresh batch, after a freshly hashed valid `done` drawn from it, are freshly hashed. */
  lemma {:induction false} SettleFresh(verify: SigOracle, pool: Pool, txs: seq<Tx>, done: seq<Tx>)
    requires FreshBatch(pool, txs)
    requires ValidSequence(verify, pool, done) && FreshHashes(pool, done)
    requires forall i | 0 <= i < |done| :: done[i] in txs
    ensures FreshHashes(pool, Settle(verify, pool, txs, done))
    decreases |txs| - |done|
  {
    var swept := CommitPass(verify, PoolAfter(pool, done), txs).1;
    FreshSweep(verify, pool, txs, done);
    if swept != [] && |done| + |swept| < |txs| {
      SettleFresh(verify, pool, txs, done + swept);
    }
  }

  /** A subset at least as large as its superset is the superset. */
  lemma SubsetFull<T>(a: set<T>, b: set<T>)
    requires a <= b && |b| <= |a|
    ensures a == b
  {
    if a != b {
      var x :| x in b && x !in a;
      SubsetCard(a, b - {x});
    }
  }

  /**
   * For a fresh batch (every transaction spends an output, no hash names an
   * output of the parent's pool, equal hashes mean equal transactions), a block
   * whose commit events reach its size had every one of its transactions
   * committed exactly once, each valid against the pool its predecessors left.
   */
  lemma AcceptedCommitsAll(verify: SigOracle, pool: Pool, txs: seq<Tx>)
    requires FreshBatch(pool, txs)
    requires |Settle(verify, pool, txs, [])| >= |txs|
    ensures var s := Settle(verify, pool, txs, []);
      && ValidSequence(verify, pool, s) && |s| == |txs|
      && (forall t | t in txs :: t in s)
      && (forall i, j | 0 <= i < j < |s| :: s[i] != s[j])
  {
    var s := Settle(verify, pool, txs, []);
    SettleSound(verify, pool, txs, []);
    SettleMembers(verify, pool, txs, []);
    SettleFresh(verify, pool, txs, []);
    ElementsCard(s);
    ElementsCard(txs);
    assert Elements(s) <= Elements(txs);
    SubsetCard(Elements(s), Elements(txs));
    SubsetFull(Elements(s), Elements(txs));
    forall t | t in txs
      ensures t in s
    {
      assert t in Elements(txs);
    }
  }

  /** A transaction with neither inputs nor outputs is valid against any pool and leaves it unchanged. */
  lemma EmptyTxCommits(verify: SigOracle, pool: Pool, h: Hash)
    ensures ValidTx(verify, pool, Tx(h, [], [])) && Apply(pool, Tx(h, [], [])) == pool
  {
    var t := Tx(h, [], []);
    assert Spent(t) == {};
    assert Created(t) == map[];
  }

  /** On an empty pool, one sweep over a free transaction and an orphan commits only the free one. */
  lemma SweepFree(verify: SigOracle, free: Tx, orphan: Tx)
    requires free == Tx(1, [], []) && orphan == Tx(2, [Input(3, 0, 0)], [])
    ensures CommitPass(verify, map[], [free, orphan]) == (map[], [free])
  {
    var empty: Pool := map[];
    EmptyTxCommits(verify, empty, 1);
    assert Claim(orphan.inputs[0]) !in empty;
    assert !InputsPresent(empty, orphan);
    assert [free, orphan][..1] == [free] && [free][..0] == [];
    assert CommitPass(verify, empty, []) == (empty, []);
    assert [] + [free] == [free];
    assert CommitPass(verify, empty, [free]) == (empty, [free]);
  }

  /**
   * Commit events are counted, not transactions: a transaction without inputs
   * is valid again on every sweep, so a block pairing it with a transaction
   * that is never valid reaches its size and is accepted.
   */
  lemma RecommitCounted(verify: SigOracle)
    ensures var free := Tx(1, [], []);
      var orphan := Tx(2, [Input(3, 0, 0)], []);
      var s := Settle(verify, map[], [free, orphan], []);
      |s| >= 2 && orphan !in s
  {
    var free := Tx(1, [], []);
    var orphan := Tx(2, [Input(3, 0, 0)], []);
    var txs := [free, orphan];
    var empty: Pool := map[];
    SweepFree(verify, free, orphan);
    EmptyTxCommits(verify, empty, 1);
    assert PoolAfter(empty, []) == empty;
    assert [free][..0] == [];
    assert PoolAfter(empty, [free]) == empty;
    assert Settle(verify, empty, txs, []) == Settle(verify, empty, txs, [free]);
    assert Settle(verify, empty, txs, [free]) == [free, free];
  }

  /** The commit events of a block built on `parent`. */
  function Events(verify: SigOracle, parent: ActiveBlock, block: Block): seq<Tx>
  {
    Settle(verify, parent.pool, block.txs, [])
  }

  /** The parent is an active tip and the commit events reach the block size. */
  predicate Accepts(verify: SigOracle, byHash: map<Hash, ActiveBlock>, block: Block)
  {
    && block.prevBlockHash.Some? && block.prevBlockHash.value in byHash
    && |Events(verify, byHash[block.prevBlockHash.value], block)| >= |block.txs|
  }

  /** The tip an accepted block adds: one above its parent, over the parent's pool after the events and the coinbase. */
  function NewTip(verify: SigOracle, parent: ActiveBlock, block: Block, stamp: int): ActiveBlock
  {
    ActiveBlock(block, PoolAfter(parent.pool, Events(verify, parent, block)) + Created(block.coinbase), parent.height + 1, stamp)
  }

  /** The genesis pool: the outputs of the genesis transactions, then the coinbase's. */
  function GenesisPool(genesis: Block): Pool
  {
    BatchOutputs(genesis.txs) + Created(genesis.coinbase)
  }

  /** Adds the outputs of each genesis transaction in turn, then the coinbase's. */
  method BuildGenesisPool(genesis: Block) returns (pool: Pool)
    ensures pool == GenesisPool(genesis)
  {
    pool := map[];
    var i := 0;
    while i < |genesis.txs|
      invariant 0 <= i <= |genesis.txs|
      invariant pool == BatchOutputs(genesis.txs[..i])
    {
      assert genesis.txs[..i + 1][..i] == genesis.txs[..i];
      pool := AddOutputs(pool, genesis.txs[i]);
      i := i + 1;
    }
    assert genesis.txs[..i] == genesis.txs;
    pool := AddOutputs(pool, genesis.coinbase);
  }

  /**
   * The genesis pool holds exactly the output positions of the genesis
   * transactions and of the coinbase, and the coinbase's outputs as they are.
   */
  lemma GenesisOutputs(genesis: Block)
    ensures forall u :: u in GenesisPool(genesis) <==>
      || (exists i | 0 <= i < |genesis.txs| :: u.txHash == genesis.txs[i].hash && 0 <= u.index < |genesis.txs[i].outputs|)
      || (u.txHash == genesis.coinbase.hash && 0 <= u.index < |genesis.coinbase.outputs|)
    ensures forall k | 0 <= k < |genesis.coinbase.outputs| ::
      GenesisPool(genesis)[UTXO(genesis.coinbase.hash, k)] == genesis.coinbase.outputs[k]
  {
    BatchOutputsKeys(genesis.txs);
  }

  /**
   * Adding a tip one above an active tip, with a stamp later than every tip's,
   * then pruning: the tips stay ordered and non-empty, the new tip is kept, and
   * exactly the old tips and the new one that reach the new floor remain.
   */
  lemma AddedTipKept(tips: seq<ActiveBlock>, byHash: map<Hash, ActiveBlock>, parent: ActiveBlock, tip: ActiveBlock)
    requires tips != [] && Sorted(tips) && parent in tips
    requires forall i | 0 <= i < |tips| :: tips[i].height >= Floor(tips) && tips[i].creationTime < tip.creationTime
    requires tip.height == parent.height + 1
    ensures var added := Insert(tips, tip);
      var r := Prune(added, byHash, Floor(added)).0;
      && r != [] && Sorted(r) && tip in r
      && (forall x :: x in r <==> (x in tips || x == tip) && x.height >= Floor(added))
  {
    InsertNew(tips, tip);
    var added := Insert(tips, tip);
    LastHighest(added);
    LastHighest(tips);
    PruneKeeps(added, byHash, Floor(added));
  }

  /** One more transaction adds exactly its hash. */
  lemma TxHashesSnoc(txs: seq<Tx>, tx: Tx)
    ensures TxHashes(txs + [tx]) == TxHashes(txs) + {tx.hash}
  {
    var both := txs + [tx];
    assert both[|txs|] == tx;
    forall h | h in TxHashes(txs)
      ensures h in TxHashes(both)
    {
      var i :| 0 <= i < |txs| && txs[i].hash == h;
      assert both[i] == txs[i];
    }
  }

  class BlockChain {
    /** The active tips, ascending in the tip order. */
    var tips: seq<ActiveBlock>
    /** The active tip of each block hash. */
    var byHash: map<Hash, ActiveBlock>
    /** The pending transactions, by hash. */
    var pending: map<Hash, Tx>
    /** The stamp of the latest tip. */
    var timestamp: int
    const verify: SigOracle

    /** Tips ordered and stamped no later than the counter; every hash maps to an active tip of that hash. */
    ghost predicate Ordered()
      reads this`tips, this`byHash, this`timestamp
    {
      && tips != [] && Sorted(tips)
      && (forall i | 0 <= i < |tips| :: tips[i].creationTime <= timestamp)
      && (forall h | h in byHash :: byHash[h] in tips && byHash[h].block.hash == h)
    }

    /** Ordered, and no tip lies more than `CUT_OFF_AGE` below the highest. */
    ghost predicate Valid()
      reads this`tips, this`byHash, this`timestamp
    {
      Ordered() && forall i | 0 <= i < |tips| :: tips[i].height >= Floor(tips)
    }

    /** A chain holding the genesis block alone, at height 0 and stamp 0, over the genesis pool. */
    constructor (genesisBlock: Block, verify: SigOracle)
      ensures Valid()
      ensures tips == [ActiveBlock(genesisBlock, GenesisPool(genesisBlock), 0, 0)]
      ensures byHash == map[genesisBlock.hash := tips[0]]
      ensures pending == map[] && timestamp == 0 && this.verify == verify
    {
      var pool := BuildGenesisPool(genesisBlock);
      var genesis := ActiveBlock(genesisBlock, pool, 0, 0);
      tips := [genesis];
      byHash := map[genesisBlock.hash := genesis];
      pending := map[];
      timestamp := 0;
      this.verify := verify;
    }

    /** The block of the highest tip, the earliest created among equally high ones. */
    function GetMaxHeightBlock(): (b: Block)
      requires Valid()
      reads this
      ensures exists t | t in tips :: Highest(tips, t) && t.block == b
    {
      LastHighest(tips);
      var t := tips[|tips| - 1];
      assert t in tips && Highest(tips, t) && t.block == t.block;
      t.block
    }

    /** The pool of that same tip. */
    function GetMaxHeightUTXOPool(): (p: Pool)
      requires Valid()
      reads this
      ensures exists t | t in tips :: Highest(tips, t) && t.block == GetMaxHeightBlock() && t.pool == p
    {
      var t := tips[|tips| - 1];
      LastHighest(tips);
      assert Highest(tips, t);
      assert t in tips;
      t.pool
    }

    function GetTransactionPool(): map<Hash, Tx>
      reads this
    {
      pending
    }

    /** Adds a transaction to the pending pool, replacing one with the same hash. */
    method AddTransaction(tx: Tx)
      modifies this`pending
      ensures pending == old(pending)[tx.hash := tx]
    {
      pending := pending[tx.hash := tx];
    }

    /** Forgets the tips more than `CUT_OFF_AGE` below the highest, lowest first, with their hashes. */
    method Trim()
      requires Ordered()
      modifies this`tips, this`byHash
      ensures Valid()
      ensures (tips, byHash) == Prune(old(tips), old(byHash), Floor(old(tips)))
    {
      var maxHeight := tips[|tips| - 1].height;
      ghost var floor := maxHeight - CUT_OFF_AGE;
      LastHighest(tips);
      while tips[0].height < maxHeight - CUT_OFF_AGE
        invariant Ordered() && tips[|tips| - 1].height == maxHeight
        invariant Prune(tips, byHash, floor) == Prune(old(tips), old(byHash), floor)
        decreases |tips|
      {
        var first := tips[0];
        assert forall x | x in tips :: x == first || x in tips[1..];
        tips := tips[1..];
        byHash := byHash - {first.block.hash};
      }
      AllReach(tips, floor);
    }

    /** One sweep over `txs` against the handler's pool; returns how many it committed. */
    method Sweep(handler: TxHandler, txs: seq<Tx>) returns (found: nat, ghost swept: seq<Tx>)
      requires handler.verify == verify
      modifies handler`unspentPool
      ensures (handler.unspentPool, swept) == CommitPass(verify, old(handler.unspentPool), txs)
      ensures found == |swept|
    {
      ghost var start := handler.unspentPool;
      found := 0;
      swept := [];
      var k := 0;
      while k < |txs|
        invariant 0 <= k <= |txs|
        invariant (handler.unspentPool, swept) == CommitPass(verify, start, txs[..k])
        invariant found == |swept|
      {
        assert txs[..k + 1][..k] == txs[..k];
        var tx := txs[k];
        var valid := handler.IsValidTx(tx);
        if valid {
          found := found + 1;
          handler.unspentPool := ApplyTx(handler.unspentPool, tx);
          swept := swept + [tx];
        }
        k := k + 1;
      }
      assert txs[..k] == txs;
    }

    /** Sweeps the block's transactions over a copy of `pool` until a sweep commits nothing or the events reach the block size. */
    method CommitEvents(pool: Pool, txs: seq<Tx>) returns (result: Pool, count: nat)
      ensures count == |Settle(verify, pool, txs, [])|
      ensures result == PoolAfter(pool, Settle(verify, pool, txs, []))
    {
      var handler := new TxHandler(pool, verify);
      count := 0;
      ghost var events: seq<Tx> := [];
      while true
        invariant handler.verify == verify
        invariant count == |events| <= |txs|
        invariant handler.unspentPool == PoolAfter(pool, events)
        invariant Settle(verify, pool, txs, events) == Settle(verify, pool, txs, [])
        decreases |txs| - count
      {
        ghost var start := handler.unspentPool;
        var found, swept := Sweep(handler, txs);
        CommitPassSound(verify, start, txs);
        PoolAfterConcat(pool, events, swept);
        if found == 0 {
          assert Settle(verify, pool, txs, events) == events;
          break;
        }
        ghost var before := events;
        count := count + found;
        events := events + swept;
        if count >= |txs| {
          assert Settle(verify, pool, txs, before) == events;
          break;
        }
      }
      result := handler.unspentPool;
    }

    /**
     * Adds `block` on top of its parent tip when the parent is active and the
     * commit events reach the block size; otherwise changes nothing.
     */
    method AddBlock(block: Block) returns (ok: bool)
      requires Valid()
      modifies this`tips, this`byHash, this`pending, this`timestamp
      ensures Valid()
      ensures ok <==> Accepts(verify, old(byHash), block)
      ensures !ok ==> tips == old(tips) && byHash == old(byHash) && pending == old(pending) && timestamp == old(timestamp)
      ensures ok ==>
        var tip := NewTip(verify, old(byHash)[block.prevBlockHash.value], block, old(timestamp) + 1);
        var added := Insert(old(tips), tip);
        && timestamp == old(timestamp) + 1
        && (tips, byHash) == Prune(added, old(byHash)[block.hash := tip], Floor(added))
        && pending == old(pending) - TxHashes(block.txs)
    {
      if block.prevBlockHash.None? {
        return false;
      }
      var parentHash := block.prevBlockHash.value;
      if parentHash !in byHash {
        return false;
      }
      var parent := byHash[parentHash];
      var pool, validTxCount := CommitEvents(parent.pool, block.txs);
      if validTxCount < |block.txs| {
        return false;
      }
      pool := AddOutputs(pool, block.coinbase);
      var current := ActiveBlock(block, pool, parent.height + 1, timestamp + 1);
      assert current == NewTip(verify, parent, block, timestamp + 1);
      Extend(current);
      ok := true;
    }

    /** Registers an accepted tip, drops its block's transactions from the pending pool, and prunes. */
    method Extend(tip: ActiveBlock)
      requires Valid() && tip.creationTime == timestamp + 1
      modifies this`tips, this`byHash, this`pending, this`timestamp
      ensures Valid()
      ensures timestamp == old(timestamp) + 1
      ensures var added := Insert(old(tips), tip);
        (tips, byHash) == Prune(added, old(byHash)[tip.block.hash := tip], Floor(added))
      ensures pending == old(pending) - TxHashes(tip.block.txs)
    {
      Attach(tip);
      RemovePending(tip.block.txs);
      Trim();
    }

    /** Stamps the next tip and adds it to the ordered tips and the hash map. */
    method Attach(tip: ActiveBlock)
      requires Ordered() && tip.creationTime == timestamp + 1
      modifies this`tips, this`byHash, this`timestamp
      ensures Ordered()
      ensures timestamp == old(timestamp) + 1
      ensures tips == Insert(old(tips), tip) && byHash == old(byHash)[tip.block.hash := tip]
    {
      timestamp := timestamp + 1;
      InsertNew(tips, tip);
      tips := Insert(tips, tip);
      forall i | 0 <= i < |tips|
        ensures tips[i].creationTime <= timestamp
      {
        assert tips[i] in old(tips) || tips[i] == tip;
      }
      byHash := byHash[tip.block.hash := tip];
    }

    /** Removes every transaction of `txs` from the pending pool, by hash. */
    method RemovePending(txs: seq<Tx>)
      modifies this`pending
      ensures pending == old(pending) - TxHashes(txs)
    {
      var k := 0;
      while k < |txs|
        invariant 0 <= k <= |txs|
        invariant pending == old(pending) - TxHashes(txs[..k])
      {
        TxHashesSnoc(txs[..k], txs[k]);
        assert txs[..k + 1] == txs[..k] + [txs[k]];
        pending := pending - {txs[k].hash};
        k := k + 1;
      }
      assert txs[..k] == txs;
    }
  }
}
