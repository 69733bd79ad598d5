/**
 * The naive gossip node: it keeps the union of every transaction it was given
 * or heard of, and relays all of it every round.
 */
module StupidNodes {
  import opened CompliantNodes

  /** The transactions carried by a set of proposals. */
  function Proposed(candidates: set<Candidate>): (txs: set<TxId>)
    ensures forall t :: t in txs <==> exists c | c in candidates :: c.tx == t
  {
    set c | c in candidates :: c.tx
  }

  class CompliantNodeStupid {
    /** Every transaction seen so far. */
    var pending: set<TxId>

    constructor ()
      ensures pending == {}
    {
      pending := {};
    }

    /** Ignores the followee graph; the empty frame says no state changes. */
    method SetFollowees(followees: seq<bool>)
    {
    }

    /** Adds the given transactions to those seen. */
    method SetPendingTransaction(pendingTransactions: set<TxId>)
      modifies this`pending
      ensures pending == old(pending) + pendingTransactions
    {
      var rest := pendingTransactions;
      while rest != {}
        invariant rest <= pendingTransactions
        invariant pending == old(pending) + (pendingTransactions - rest)
        decreases rest
      {
        ghost var some := Member(rest);
        var tx :| tx in rest;
        pending := pending + {tx};
        rest := rest - {tx};
      }
    }

    /** Relays everything seen, and changes nothing. */
    method SendToFollowers() returns (result: set<TxId>)
      ensures result == pending
    {
      result := pending;
    }

    /** Adds the transactions the followees proposed to those seen. */
    method ReceiveFromFollowees(candidates: set<Candidate>)
      modifies this`pending
      ensures pending == old(pending) + Proposed(candidates)
    {
      var rest := candidates;
      while rest != {}
        invariant rest <= candidates
        invariant pending == old(pending) + Proposed(candidates - rest)
        decreases rest
      {
        ghost var some := Member(rest);
        var c :| c in rest;
        assert Proposed(candidates - (rest - {c})) == Proposed(candidates - rest) + {c.tx};
        pending := pending + {c.tx};
        rest := rest - {c};
      }
      assert candidates - rest == candidates;
    }
  }
}
