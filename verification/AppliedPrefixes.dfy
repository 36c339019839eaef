/** What leaves a node: the position bound that keeps every lookup in range, the exactly-once hand-off
    to the WAL, the network and the applier, and agreement of what is applied. */
module AppliedPrefixes {
  import opened Types
  import opened RaftLogs
  import opened RaftMachine
  import opened RaftFacts
  import opened Cluster
  import opened LogMatching

  /** In every run, duplicated appends and bare proposals included, no Id exceeds its position, so
      positions up to the last Id exist, and the commit index names an existing entry. */
  lemma PositionBoundHolds(ids: set<int>, cs: seq<State>, acts: seq<Action>, i: nat, n: int)
    requires IsRun(ids, cs, acts) && i < |cs| && n in cs[i].hosts
    ensures var l := cs[i].hosts[n].raft.log;
            && l.Valid()
            && (forall p | 1 <= p < |l.entries| :: 0 <= l.entries[p].id <= p)
            && l.LastIndex() < |l.entries| && l.commitIndex < |l.entries|
            && |l.CommittedEntries()| == l.commitIndex - l.lastApplied
  {
    hide Next, Enabled;
    RunIsSound(ids, cs, acts, i);
    assert HostOK(ids, n, cs[i].hosts[n]);
  }

  /** In every run: the WAL is exactly the log up to stableIndex, what was handed to the applier is
      exactly the log up to lastApplied, and every queued message was sent once, in queue order, or is
      still waiting in the queue. */
  lemma ExactlyOnceHandOff(ids: set<int>, cs: seq<State>, acts: seq<Action>, i: nat, n: int)
    requires IsRun(ids, cs, acts) && i < |cs| && n in cs[i].hosts
    ensures var h := cs[i].hosts[n];
            && h.raft.log.Valid()
            && h.wal == h.raft.log.entries[1..h.raft.log.stableIndex + 1]
            && h.delivered == h.raft.log.entries[1..h.raft.log.lastApplied + 1]
            && h.queued == h.sent + h.raft.msgs
            && h.queuedAfter == h.sentAfter + h.raft.msgsAfterAppend
  {
    hide Next, Enabled;
    RunIsSound(ids, cs, acts, i);
    assert HostOK(ids, n, cs[i].hosts[n]);
  }

  /** In every run, a driver round leaves both buffers empty and nothing committed undelivered; the whole log
      is in the WAL exactly if the last Id named the last position before, or the WAL already had it all. */
  lemma RoundLeaves(ids: set<int>, cs: seq<State>, acts: seq<Action>, i: nat)
    requires IsRun(ids, cs, acts) && i < |acts| && acts[i].Round?
    ensures acts[i].node in cs[i].hosts && acts[i].node in cs[i + 1].hosts
    ensures var l, h := cs[i].hosts[acts[i].node].raft.log, cs[i + 1].hosts[acts[i].node];
            && h.raft.log.Valid()
            && h.delivered == h.raft.log.entries[1..h.raft.log.commitIndex + 1]
            && h.raft.msgs == [] && h.raft.msgsAfterAppend == []
            && (h.wal == h.raft.log.entries[1..] <==> l.LastIndex() == |l.entries| - 1 || l.stableIndex == |l.entries| - 1)
  {
    hide HostOK, Rounded;
    var n := acts[i].node;
    RunIsSound(ids, cs, acts, i);
    assert cs[i + 1] == Next(cs[i], acts[i]);
    assert HostOK(ids, n, cs[i].hosts[n]);
    RoundEmpties(ids, n, cs[i].hosts[n]);
  }

  lemma RoundEmpties(ids: set<int>, n: int, h: Host)
    requires HostOK(ids, n, h)
    ensures var l, h' := h.raft.log, Rounded(h);
            && h'.raft.log.Valid()
            && h'.delivered == h'.raft.log.entries[1..h'.raft.log.commitIndex + 1]
            && h'.raft.msgs == [] && h'.raft.msgsAfterAppend == []
            && (h'.wal == h'.raft.log.entries[1..] <==> l.LastIndex() == |l.entries| - 1 || l.stableIndex == |l.entries| - 1)
  {
    hide BatchesOK, Vouched;
    RoundedOK(ids, n, h);
    RoundMarks(h);
    WholeTail(Rounded(h).raft.log);
  }

  lemma RoundMarks(h: Host)
    requires Valid(h.raft)
    ensures var l, h' := h.raft.log, Rounded(h);
            && h'.raft.msgs == [] && h'.raft.msgsAfterAppend == []
            && h'.raft.log.entries == l.entries && h'.raft.log.lastApplied == h'.raft.log.commitIndex
            && h'.raft.log.stableIndex == if l.stableIndex < l.LastIndex() then l.LastIndex() else l.stableIndex
  {}

  lemma WholeTail(l: LogState)
    requires l.Valid()
    ensures l.entries[1..l.stableIndex + 1] == l.entries[1..] <==> l.stableIndex == |l.entries| - 1
  {
    assert |l.entries[1..l.stableIndex + 1]| == l.stableIndex;
  }

  /** So in a contiguous run a driver round leaves nothing behind. */
  lemma RoundCatchesUp(ids: set<int>, cs: seq<State>, acts: seq<Action>, i: nat)
    requires IsContiguousRun(ids, cs, acts) && i < |acts| && acts[i].Round?
    ensures acts[i].node in cs[i + 1].hosts
    ensures var h := cs[i + 1].hosts[acts[i].node];
            && h.raft.log.Valid()
            && h.wal == h.raft.log.entries[1..]
            && h.delivered == h.raft.log.entries[1..h.raft.log.commitIndex + 1]
            && h.raft.msgs == [] && h.raft.msgsAfterAppend == []
  {
    hide Matching, Next, Enabled;
    RoundLeaves(ids, cs, acts, i);
    RunIsMatching(ids, cs, acts, i);
    DenseLog(cs[i], acts[i].node);
    DenseLastIndex(cs[i].hosts[acts[i].node].raft.log);
  }

  lemma DenseLog(c: State, n: int)
    requires Matching(c) && n in c.hosts
    ensures Dense(c.hosts[n].raft.log.entries)
  {}

  // ---------- One leader ----------

  /** No node but a is ever leader (a may lead several terms). */
  ghost predicate SoleLeader(cs: seq<State>, a: int) {
    forall i, n | 0 <= i < |cs| && n in cs[i].hosts && cs[i].hosts[n].raft.role.Leader? :: n == a
  }

  ghost predicate AllPrefixesOf(c: State, a: int) {
    a in c.hosts && forall n | n in c.hosts :: c.hosts[n].raft.log.entries <= c.hosts[a].raft.log.entries
  }

  lemma NextPrefixes(ids: set<int>, c: State, act: Action, a: int)
    requires Sound(ids, c) && Matching(c) && AllPrefixesOf(c, a) && Enabled(c, act) && Contiguous(c, act)
    requires c.hosts[Actor(act)].raft.role.Leader? ==> Actor(act) == a
    ensures AllPrefixesOf(Next(c, act), a)
  {
    hide Step, Tick, HostOK, StepFacts, Accepts, Match, Rounded, Stepped, Contiguous, Dense, Valid;
    var n, c' := Actor(act), Next(c, act);
    NextSound(ids, c, act);
    var own, grown := c.hosts[n].raft.log.entries, c'.hosts[n].raft.log.entries;
    if act.Round? {
      RoundKeepsEntries(ids, n, c.hosts[n]);
    } else {
      ContiguousGrowth(ids, c, act);
      assert Grows(c.hosts[n].raft, c'.hosts[n].raft) && own <= grown;
      if n != a && grown != own {
        assert grown <= c.hosts[act.m.from].raft.log.entries <= c.hosts[a].raft.log.entries;
      }
    }
  }

  lemma {:induction false} RunPrefixes(ids: set<int>, cs: seq<State>, acts: seq<Action>, i: nat, a: int)
    requires IsContiguousRun(ids, cs, acts) && SoleLeader(cs, a) && a in ids && i < |cs|
    ensures AllPrefixesOf(cs[i], a)
  {
    hide Next, HostOK, Matching;
    if i > 0 {
      RunPrefixes(ids, cs, acts, i - 1, a);
      RunIsSound(ids, cs, acts, i - 1);
      RunIsMatching(ids, cs, acts, i - 1);
      assert Contiguous(cs[i - 1], acts[i - 1]);
      NextPrefixes(ids, cs[i - 1], acts[i - 1], a);
    }
  }

  /** In every contiguous run in which only one node ever leads, every log is a prefix of the leader's
      and what any two nodes have applied, at whatever moments, are prefixes of one another. */
  lemma AppliedPrefixesAgree(ids: set<int>, cs: seq<State>, acts: seq<Action>, i: nat, j: nat, a: int, x: int, y: int)
    requires IsContiguousRun(ids, cs, acts) && SoleLeader(cs, a) && a in ids && x in ids && y in ids
    requires i <= j < |cs|
    ensures x in cs[i].hosts && y in cs[j].hosts && a in cs[i].hosts
    ensures cs[i].hosts[x].raft.log.entries <= cs[i].hosts[a].raft.log.entries
    ensures cs[i].hosts[x].delivered <= cs[j].hosts[y].delivered || cs[j].hosts[y].delivered <= cs[i].hosts[x].delivered
  {
    hide Next, HostOK, Enabled, Contiguous;
    RunIsSound(ids, cs, acts, i);
    RunIsSound(ids, cs, acts, j);
    RunPrefixes(ids, cs, acts, i, a);
    RunPrefixes(ids, cs, acts, j, a);
    RunGrows(ids, cs, acts, i, j, a);
    ExactlyOnceHandOff(ids, cs, acts, i, x);
    ExactlyOnceHandOff(ids, cs, acts, j, y);
    PositionBoundHolds(ids, cs, acts, i, x);
    PositionBoundHolds(ids, cs, acts, j, y);
    hide IsRun, SoleLeader, AllPrefixesOf, Sound;
    var whole := cs[j].hosts[a].raft.log.entries;
    SlicesAgree(whole, cs[i].hosts[x].raft.log.entries, cs[i].hosts[x].raft.log.lastApplied + 1,
                cs[j].hosts[y].raft.log.entries, cs[j].hosts[y].raft.log.lastApplied + 1);
  }

  /** Slices from the start of two prefixes of one sequence. */
  lemma SlicesAgree(whole: seq<Log>, a: seq<Log>, p: int, b: seq<Log>, q: int)
    requires a <= whole && b <= whole && 1 <= p <= |a| && 1 <= q <= |b|
    ensures a[1..p] <= b[1..q] || b[1..q] <= a[1..p]
  {
    assert a[1..p] == whole[1..p] && b[1..q] == whole[1..q];
    if p <= q {
      assert whole[1..p] == whole[1..q][..p - 1];
    } else {
      assert whole[1..q] == whole[1..p][..q - 1];
    }
  }
}
