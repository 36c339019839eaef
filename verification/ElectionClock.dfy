/** The election timer as a clock: with no messages, the term counts whole timeouts. */
module ElectionClock {
  import opened RaftMachine
  import opened RaftFacts
  import opened Arithmetic

  ghost predicate AreOrders(orders: seq<seq<int>>, peers: set<int>) {
    forall i {:trigger orders[i]} | 0 <= i < |orders| :: IsOrder(orders[i], peers)
  }

  /** One node that only ticks, each tick ranging over its peers in some order. */
  ghost function Ticked(s: RaftState, orders: seq<seq<int>>): (r: RaftState)
    requires Valid(s) && AreOrders(orders, s.peers)
    ensures Valid(r) && r.peers == s.peers
  {
    if orders == [] then s
    else
      var last := |orders| - 1;
      var before := Ticked(s, orders[..last]);
      assert IsOrder(orders[last], s.peers);
      TickSatisfiesFacts(before, orders[last]);
      Tick(before, orders[last])
  }

  /** One tick: the clock moves on, or it is at its end, starts again and the term goes up. */
  lemma OneTick(s: RaftState, order: seq<int>)
    requires Valid(s) && !s.role.Leader? && s.clusterSize > 1 && forall p | p in order :: p in s.peers
    ensures var r := Tick(s, order);
            && !r.role.Leader? && r.clusterSize == s.clusterSize && r.electionTimeout == r.randomizedTimeout == s.electionTimeout
            && if s.electionTick + 1 >= s.electionTimeout then r.electionTick == 0 && r.currentTerm == s.currentTerm + 1
               else r.electionTick == s.electionTick + 1 && r.currentTerm == s.currentTerm
  {
    TickCases(s, order);
  }

  /** k ticks raise the term by the number of whole timeouts in electionTick + k and leave the rest on
      the clock. */
  lemma {:induction false} TermCountsTimeouts(s: RaftState, orders: seq<seq<int>>)
    requires Valid(s) && AreOrders(orders, s.peers)
    requires !s.role.Leader? && s.clusterSize > 1 && 0 <= s.electionTick < s.electionTimeout
    ensures var r, k := Ticked(s, orders), |orders|;
            && !r.role.Leader? && r.clusterSize == s.clusterSize
            && r.electionTimeout == r.randomizedTimeout == s.electionTimeout
            && r.currentTerm == s.currentTerm + (s.electionTick + k) / s.electionTimeout
            && r.electionTick == (s.electionTick + k) % s.electionTimeout
  {
    ClockRuns(s);
    var t, k := s.electionTimeout, |orders|;
    if k == 0 {
      DivModUnique(s.electionTick, t, 0, s.electionTick);
    } else {
      TermCountsTimeouts(s, orders[..k - 1]);
      var before, order := Ticked(s, orders[..k - 1]), orders[k - 1];
      assert IsOrder(order, s.peers);
      OneTick(before, order);
      assert Ticked(s, orders) == Tick(before, order);
      var after := Tick(before, order);
      hide *;
      Successor(s.electionTick + k - 1, t, s.currentTerm, before.currentTerm, before.electionTick, after.currentTerm, after.electionTick);
    }
  }

  lemma Successor(x: int, t: int, term: int, before: int, tick: int, after: int, tick': int)
    requires t > 0 && before == term + x / t && tick == x % t
    requires if tick + 1 >= t then tick' == 0 && after == before + 1 else tick' == tick + 1 && after == before
    ensures after == term + (x + 1) / t && tick' == (x + 1) % t
  {
    DivModSuccessor(x, t);
  }

  lemma ClockRuns(s: RaftState)
    requires Valid(s)
    ensures s.electionTimeout == s.randomizedTimeout > 0
  {}
}
