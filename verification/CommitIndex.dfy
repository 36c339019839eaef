/** The commit index over whole runs: it never falls, a leader moves it only by counting a quorum of
    progress records for an entry of its own term, and no node runs ahead of what leaders counted. */
module CommitIndex {
  import opened RaftLogs
  import opened RaftMachine
  import opened RaftFacts
  import opened Cluster

  ghost predicate Bounded(c: State) {
    0 <= c.counted && forall i | i in c.hosts :: c.hosts[i].raft.log.commitIndex <= c.counted
  }

  lemma NextBounded(ids: set<int>, c: State, a: Action)
    requires Sound(ids, c) && Bounded(c) && Enabled(c, a)
    ensures Bounded(Next(c, a)) && c.counted <= Next(c, a).counted
  {
    hide Step, Tick, VotesExplained, LeadershipExplained, Emits, CommitExplained;
    var n := Actor(a);
    if a.Round? {
      RoundedOK(ids, n, c.hosts[n]);
    } else {
      MovedFacts(ids, c, a);
      if a.Deliver? {
        SentIsVouched(ids, c, a.m);
      }
    }
  }

  lemma {:induction false} RunIsBounded(ids: set<int>, cs: seq<State>, acts: seq<Action>, i: nat)
    requires IsRun(ids, cs, acts) && i < |cs|
    ensures Bounded(cs[i])
  {
    hide Next, HostOK, Enabled;
    if i > 0 {
      RunIsBounded(ids, cs, acts, i - 1);
      RunIsSound(ids, cs, acts, i - 1);
      NextBounded(ids, cs[i - 1], acts[i - 1]);
    }
  }

  lemma CommitIndexNeverFalls(ids: set<int>, cs: seq<State>, acts: seq<Action>, i: nat, j: nat, n: int)
    requires IsRun(ids, cs, acts) && i <= j < |cs| && n in ids
    ensures n in cs[i].hosts && n in cs[j].hosts
    ensures cs[i].hosts[n].raft.log.commitIndex <= cs[j].hosts[n].raft.log.commitIndex
  {
    hide Next, HostOK, Enabled;
    RunGrows(ids, cs, acts, i, j, n);
  }

  lemma NextCounts(ids: set<int>, c: State, a: Action)
    requires Sound(ids, c) && Bounded(c) && Enabled(c, a) && Next(c, a).counted != c.counted
    ensures var s, s' := c.hosts[Actor(a)].raft, Next(c, a).hosts[Actor(a)].raft;
            && s.role.Leader? && s'.role.Leader? && Valid(s')
            && s'.log.commitIndex == Next(c, a).counted
            && s.log.commitIndex < s'.log.commitIndex <= s'.log.LastIndex()
            && Committable(s', s'.log.commitIndex)
            && (forall i | s'.log.commitIndex < i <= s'.log.LastIndex() :: !Committable(s', i))
  {
    hide Step, Tick, VotesExplained, LeadershipExplained, Emits, LogExplained;
    MovedFacts(ids, c, a);
  }

  /** In every run: no commit index exceeds the largest value a leader counted, and that value only
      moves when a leader's own commit index reaches the greatest index that a quorum of its progress
      records covers and whose entry has its current term. */
  lemma CommitsAreCounted(ids: set<int>, cs: seq<State>, acts: seq<Action>, i: nat, n: int)
    requires IsRun(ids, cs, acts) && i < |cs| && n in cs[i].hosts
    ensures cs[i].hosts[n].raft.log.commitIndex <= cs[i].counted
    ensures i < |acts| && cs[i + 1].counted != cs[i].counted ==>
              && Actor(acts[i]) in cs[i + 1].hosts
              && var s' := cs[i + 1].hosts[Actor(acts[i])].raft;
                 && s'.role.Leader? && Valid(s')
                 && s'.log.commitIndex == cs[i + 1].counted
                 && Committable(s', s'.log.commitIndex)
                 && (forall k | s'.log.commitIndex < k <= s'.log.LastIndex() :: !Committable(s', k))
  {
    hide HostOK, Moved, Committable;
    RunIsBounded(ids, cs, acts, i);
    if i < |acts| && cs[i + 1].counted != cs[i].counted {
      RunIsSound(ids, cs, acts, i);
      NextCounts(ids, cs[i], acts[i]);
    }
  }
}
