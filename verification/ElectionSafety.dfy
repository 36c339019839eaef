/** Election Safety (section 5.2 of the Raft paper): at most one leader per term, ever. */
module ElectionSafety {
  import opened Sets
  import opened RaftMachine
  import opened RaftFacts
  import opened Cluster

  predicate VotedFor(s: RaftState, term: int, candidate: int) {
    term in s.votedFor && s.votedFor[term] == candidate
  }

  ghost function Voters(c: State, candidate: int, term: int): set<int> {
    set p | p in c.hosts && VotedFor(c.hosts[p].raft, term, candidate)
  }

  /** A majority has this candidate on record for this term; such a record is never erased. */
  ghost predicate Elected(c: State, candidate: int, term: int) {
    |Voters(c, candidate, term)| >= Quorum(|c.hosts.Keys|)
  }

  ghost predicate VotesOnRecord(c: State) {
    forall a, p | a in c.hosts && CountsVoteOf(c.hosts[a].raft, p) ::
      p in c.hosts && VotedFor(c.hosts[p].raft, c.hosts[a].raft.currentTerm, a)
  }

  ghost predicate LeadersElected(c: State) {
    forall a | a in c.hosts && c.hosts[a].raft.role.Leader? :: Elected(c, a, c.hosts[a].raft.currentTerm)
  }

  ghost predicate Fair(c: State) {
    VotesOnRecord(c) && LeadersElected(c)
  }

  lemma InitFair(ids: set<int>)
    ensures Fair(Init(ids))
  {}

  lemma VotersGrow(c: State, c': State, candidate: int, term: int)
    requires c'.hosts.Keys == c.hosts.Keys
    requires forall i | i in c.hosts :: Grows(c.hosts[i].raft, c'.hosts[i].raft)
    ensures Voters(c, candidate, term) <= Voters(c', candidate, term)
    ensures Elected(c, candidate, term) ==> Elected(c', candidate, term)
  {
    forall p | p in Voters(c, candidate, term) ensures p in Voters(c', candidate, term) {
      assert Grows(c.hosts[p].raft, c'.hosts[p].raft);
    }
    SubsetSize(Voters(c, candidate, term), Voters(c', candidate, term));
  }

  /** Whatever explains a counted vote is on the voter's record. */
  lemma ExplainedVoteOnRecord(ids: set<int>, c: State, a: Action, p: int)
    requires Sound(ids, c) && VotesOnRecord(c) && Enabled(c, a) && !a.Round?
    requires var s := c.hosts[Actor(a)].raft; VoteExplained(s, Input(a), Moved(s, a), p)
    ensures var c' := Next(c, a);
            p in ids && VotedFor(c'.hosts[p].raft, c'.hosts[Actor(a)].raft.currentTerm, Actor(a))
  {
    hide StepFacts, Step, Tick, HostOK;
    var n := Actor(a);
    var c' := Next(c, a);
    NextSound(ids, c, a);
    var s, s' := c.hosts[n].raft, c'.hosts[n].raft;
    assert s' == Moved(s, a);
    assert HostOK(ids, n, c.hosts[n]) && HostOK(ids, n, c'.hosts[n]);
    IdOf(ids, n, c'.hosts[n]);
    if CountsVoteOf(s, p) && s'.currentTerm == s.currentTerm {
      assert Grows(c.hosts[p].raft, c'.hosts[p].raft);
    } else if p != n {
      assert a.Deliver?;
      SentIsVouched(ids, c, a.m);
      assert Grows(c.hosts[p].raft, c'.hosts[p].raft);
    } else if a.Deliver? && a.m.from == n {
      SentIsVouched(ids, c, a.m);
      assert Grows(c.hosts[p].raft, c'.hosts[p].raft);
    }
  }

  lemma IdOf(ids: set<int>, i: int, h: Host)
    requires HostOK(ids, i, h)
    ensures h.raft.id == i && h.raft.clusterSize == |ids| && Valid(h.raft)
  {}

  lemma RoundKeepsRoles(ids: set<int>, i: int, h: Host)
    requires HostOK(ids, i, h)
    ensures Rounded(h).raft == h.raft.(msgs := Rounded(h).raft.msgs, msgsAfterAppend := Rounded(h).raft.msgsAfterAppend,
                                       log := Rounded(h).raft.log)
  {}

  lemma NextKeepsRecord(ids: set<int>, c: State, a: Action)
    requires Sound(ids, c) && Fair(c) && Enabled(c, a)
    ensures VotesOnRecord(Next(c, a))
  {
    hide StepFacts, Step, Tick, HostOK, LeadershipExplained, LogExplained, Emits, Valid;
    var n, c' := Actor(a), Next(c, a);
    NextSound(ids, c, a);
    forall x, p | x in c'.hosts && CountsVoteOf(c'.hosts[x].raft, p)
      ensures p in c'.hosts && VotedFor(c'.hosts[p].raft, c'.hosts[x].raft.currentTerm, x)
    {
      if x == n && !a.Round? {
        MovedFacts(ids, c, a);
        VotesAreExplained(c.hosts[n].raft, Input(a), Moved(c.hosts[n].raft, a), p);
        ExplainedVoteOnRecord(ids, c, a, p);
      } else {
        if x == n {
          RoundKeepsRoles(ids, n, c.hosts[n]);
        }
        assert CountsVoteOf(c.hosts[x].raft, p);
        assert Grows(c.hosts[p].raft, c'.hosts[p].raft);
      }
    }
  }

  lemma VotesAreExplained(s: RaftState, m: Message, s': RaftState, p: int)
    requires Valid(s) && StepFacts(s, m, s') && CountsVoteOf(s', p)
    ensures VoteExplained(s, m, s', p)
  {}

  lemma LeadersAreExplained(s: RaftState, m: Message, s': RaftState) returns (q: set<int>)
    requires Valid(s) && StepFacts(s, m, s') && s'.role.Leader?
    requires !(s.role.Leader? && s'.currentTerm == s.currentTerm)
    ensures ExplainedQuorum(s, m, s', q)
  {
    q :| ExplainedQuorum(s, m, s', q);
  }

  lemma NextElects(ids: set<int>, c: State, a: Action)
    requires Sound(ids, c) && Fair(c) && Enabled(c, a)
    ensures LeadersElected(Next(c, a))
  {
    hide StepFacts, Step, Tick, HostOK, LeadershipExplained, LogExplained, Emits, Valid, VoteExplained;
    var n, c' := Actor(a), Next(c, a);
    NextSound(ids, c, a);
    forall x | x in c'.hosts && c'.hosts[x].raft.role.Leader? ensures Elected(c', x, c'.hosts[x].raft.currentTerm) {
      var s, s' := c.hosts[x].raft, c'.hosts[x].raft;
      if x == n && a.Round? {
        RoundKeepsRoles(ids, n, c.hosts[n]);
      }
      if s.role.Leader? && s'.currentTerm == s.currentTerm {
        VotersGrow(c, c', x, s.currentTerm);
      } else {
        MovedFacts(ids, c, a);
        IdOf(ids, n, c'.hosts[n]);
        var q := LeadersAreExplained(s, Input(a), s');
        forall p | p in q ensures p in Voters(c', n, s'.currentTerm) {
          ExplainedVoteOnRecord(ids, c, a, p);
        }
        SubsetSize(q, Voters(c', n, s'.currentTerm));
      }
    }
  }

  lemma {:induction false} RunIsFair(ids: set<int>, cs: seq<State>, acts: seq<Action>, i: nat)
    requires IsRun(ids, cs, acts) && i < |cs|
    ensures Fair(cs[i])
  {
    hide Next, Enabled, HostOK, Fair;
    if i == 0 {
      InitFair(ids);
    } else {
      RunIsFair(ids, cs, acts, i - 1);
      RunIsSound(ids, cs, acts, i - 1);
      NextFair(ids, cs[i - 1], acts[i - 1]);
    }
  }

  lemma NextFair(ids: set<int>, c: State, a: Action)
    requires Sound(ids, c) && Fair(c) && Enabled(c, a)
    ensures Fair(Next(c, a))
  {
    NextKeepsRecord(ids, c, a);
    NextElects(ids, c, a);
  }

  /** Each node votes once per term, so two majorities cannot name two candidates. */
  lemma ElectedIsUnique(c: State, a: int, b: int, term: int)
    requires Elected(c, a, term) && Elected(c, b, term)
    ensures a == b
  {
    QuorumsIntersect(c.hosts.Keys, Voters(c, a, term), Voters(c, b, term));
  }

  lemma ElectedForever(ids: set<int>, cs: seq<State>, acts: seq<Action>, i: nat, j: nat, candidate: int, term: int)
    requires IsRun(ids, cs, acts) && i <= j < |cs| && Elected(cs[i], candidate, term)
    ensures Elected(cs[j], candidate, term)
  {
    hide Next, Enabled, HostOK, Elected;
    RunIsSound(ids, cs, acts, i);
    RunIsSound(ids, cs, acts, j);
    forall n | n in ids ensures Grows(cs[i].hosts[n].raft, cs[j].hosts[n].raft) {
      RunGrows(ids, cs, acts, i, j, n);
    }
    VotersGrow(cs[i], cs[j], candidate, term);
  }

  /** No two nodes are ever leader in the same term, at the same moment or at different ones. */
  lemma ElectionSafety(ids: set<int>, cs: seq<State>, acts: seq<Action>, i: nat, j: nat, a: int, b: int)
    requires IsRun(ids, cs, acts) && i < |cs| && j < |cs|
    requires a in cs[i].hosts && cs[i].hosts[a].raft.role.Leader?
    requires b in cs[j].hosts && cs[j].hosts[b].raft.role.Leader?
    requires cs[i].hosts[a].raft.currentTerm == cs[j].hosts[b].raft.currentTerm
    ensures a == b
  {
    hide Next, Enabled, HostOK, Elected;
    var term, last := cs[i].hosts[a].raft.currentTerm, |cs| - 1;
    RunIsFair(ids, cs, acts, i);
    RunIsFair(ids, cs, acts, j);
    ElectedForever(ids, cs, acts, i, last, a, term);
    ElectedForever(ids, cs, acts, j, last, b, term);
    ElectedIsUnique(cs[last], a, b, term);
  }
}
