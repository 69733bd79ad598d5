/**
 * The compliant gossip node. It counts, per transaction, how many followee
 * proposals carried it; for the first rounds it relays everything it has seen,
 * and in the last round it proposes only the transactions whose count reaches a
 * threshold fixed from the number of followees.
 *
 * Transactions of the gossip simulation are identified by an integer id; a
 * candidate is a proposal of one transaction by one followee.
 */
module CompliantNodes {

  type TxId = int

  datatype Candidate = Candidate(tx: TxId, sender: int)

  /** Integer division truncating toward zero, as the JVM divides `int`s. */
  function TruncDiv(x: int, d: int): (q: int)
    requires d > 0
    ensures x >= 0 ==> 0 <= x - q * d < d
    ensures x < 0 ==> -d < x - q * d <= 0
  {
    if x >= 0 then x / d else -((-x) / d)
  }

  /** Number of `true` entries. */
  function CountTrue(s: seq<bool>): (n: nat)
    ensures n <= |s|
    ensures n == 0 <==> forall i | 0 <= i < |s| :: !s[i]
    ensures n == |s| <==> forall i | 0 <= i < |s| :: s[i]
  {
    if s == [] then 0
    else
      var pre := s[..|s| - 1];
      assert forall i | 0 <= i < |pre| :: pre[i] == s[i];
      CountTrue(pre) + (if s[|s| - 1] then 1 else 0)
  }

  /** Some element of a nonempty set; the loops below visit a set in no particular order. */
  lemma Member<T>(s: set<T>) returns (x: T)
    requires s != {}
    ensures x in s
  {
    x :| x in s;
  }

  /** Number of proposals in `cs` that carry transaction `t`. */
  function Carriers(cs: set<Candidate>, t: TxId): nat
  {
    |set c | c in cs && c.tx == t|
  }

  /** One more proposal raises the count of its own transaction by one and no other. */
  lemma CarriersAdd(cs: set<Candidate>, c: Candidate, t: TxId)
    requires c !in cs
    ensures Carriers(cs + {c}, t) == Carriers(cs, t) + (if c.tx == t then 1 else 0)
  {
    var before := set x | x in cs && x.tx == t;
    var after := set x | x in cs + {c} && x.tx == t;
    if c.tx == t {
      assert after == before + {c};
    } else {
      assert after == before;
    }
  }

  /** The proposals carrying `t` are at least one exactly when some proposal carries it. */
  lemma CarriersPositive(cs: set<Candidate>, t: TxId)
    ensures Carriers(cs, t) > 0 <==> exists c | c in cs :: c.tx == t
  {
    var carrying := set x | x in cs && x.tx == t;
    if c :| c in cs && c.tx == t {
      assert c in carrying;
    }
    if |carrying| > 0 {
      var c := Member(carrying);
      assert c in cs && c.tx == t;
    }
  }

  class CompliantNode {
    /** Rounds still to relay before the final proposal. */
    var numRounds: int
    /** Count a transaction needs in the final proposal. */
    var lowerbound: int
    /** Every transaction seen, with the number of followee proposals that carried it. */
    var pending: map<TxId, int>

    constructor (numRounds: int)
      ensures this.numRounds == numRounds && lowerbound == 0 && pending == map[]
    {
      this.numRounds := numRounds;
      lowerbound := 0;
      pending := map[];
    }

    /**
     * Adds the number of followees to the threshold, then scales it by the
     * number of rounds and divides by four, truncating. On a fresh node the
     * threshold becomes a quarter of followees times rounds.
     */
    method SetFollowees(followees: seq<bool>)
      modifies this`lowerbound
      ensures lowerbound == TruncDiv((old(lowerbound) + CountTrue(followees)) * numRounds, 4)
    {
      var i := 0;
      while i < |followees|
        invariant 0 <= i <= |followees|
        invariant lowerbound == old(lowerbound) + CountTrue(followees[..i])
      {
        assert followees[..i + 1][..i] == followees[..i];
        if followees[i] {
          lowerbound := lowerbound + 1;
        }
        i := i + 1;
      }
      assert followees[..i] == followees;
      lowerbound := lowerbound * numRounds;
      lowerbound := TruncDiv(lowerbound, 4);
    }

    /** Adds each unseen transaction with count zero; seen ones keep their counts. */
    method SetPendingTransaction(pendingTransactions: set<TxId>)
      modifies this`pending
      ensures pending.Keys == old(pending).Keys + pendingTransactions
      ensures forall t | t in old(pending) :: pending[t] == old(pending)[t]
      ensures forall t | t in pendingTransactions && t !in old(pending) :: pending[t] == 0
    {
      var rest := pendingTransactions;
      while rest != {}
        invariant rest <= pendingTransactions
        invariant pending.Keys == old(pending).Keys + (pendingTransactions - rest)
        invariant forall t | t in old(pending) :: pending[t] == old(pending)[t]
        invariant forall t | t in pendingTransactions - rest && t !in old(pending) :: pending[t] == 0
        decreases rest
      {
        ghost var some := Member(rest);
        var tx :| tx in rest;
        if tx !in pending {
          pending := pending[tx := 0];
        }
        rest := rest - {tx};
      }
    }

    /**
     * While rounds remain, spends one and relays every transaction seen; in the
     * last round relays exactly those whose count reaches the threshold, and
     * changes nothing.
     */
    method SendToFollowers() returns (result: set<TxId>)
      modifies this`numRounds
      ensures old(numRounds) == 0 ==> numRounds == 0
      ensures old(numRounds) == 0 ==> forall t :: t in result <==> t in pending && pending[t] >= lowerbound
      ensures old(numRounds) != 0 ==> numRounds == old(numRounds) - 1 && result == pending.Keys
      ensures old(numRounds) >= 0 ==> numRounds >= 0
    {
      if numRounds == 0 {
        result := {};
        var keys := pending.Keys;
        while keys != {}
          invariant numRounds == 0 && keys <= pending.Keys
          invariant forall t :: t in result <==> t in pending && t !in keys && pending[t] >= lowerbound
          decreases keys
        {
          ghost var some := Member(keys);
          var tx :| tx in keys;
          if pending[tx] >= lowerbound {
            result := result + {tx};
          }
          keys := keys - {tx};
        }
        return;
      }
      numRounds := numRounds - 1;
      result := pending.Keys;
    }

    /**
     * Raises each transaction's count by the number of proposals carrying it,
     * starting unseen transactions at zero; nothing else changes.
     */
    method ReceiveFromFollowees(candidates: set<Candidate>)
      modifies this`pending
      ensures forall t :: t in pending <==> t in old(pending) || exists c | c in candidates :: c.tx == t
      ensures forall t | t in pending ::
        pending[t] == (if t in old(pending) then old(pending)[t] else 0) + Carriers(candidates, t)
    {
      var rest := candidates;
      while rest != {}
        invariant rest <= candidates
        invariant forall t :: t in pending <==> t in old(pending) || Carriers(candidates - rest, t) > 0
        invariant forall t | t in pending ::
          pending[t] == (if t in old(pending) then old(pending)[t] else 0) + Carriers(candidates - rest, t)
        decreases rest
      {
        ghost var some := Member(rest);
        var c :| c in rest;
        forall t {
          CarriersAdd(candidates - rest, c, t);
        }
        assert candidates - (rest - {c}) == (candidates - rest) + {c};
        if c.tx !in pending {
          pending := pending[c.tx := 0];
        }
        pending := pending[c.tx := pending[c.tx] + 1];
        rest := rest - {c};
      }
      assert candidates - rest == candidates;
      forall t {
        CarriersPositive(candidates, t);
      }
    }
  }
}
