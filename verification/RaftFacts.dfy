/** What one Step or Tick of a single node can and cannot do, for any message. The cluster proofs
    use these facts and never look inside the handlers. */
module RaftFacts {
  import opened Types
  import opened RaftLogs
  import opened RaftMachine

  // ---------- What a node never takes back ----------

  /** Terms, votes, log entries and the commit index only ever grow. */
  ghost predicate Grows(s: RaftState, s': RaftState) {
    && s'.id == s.id && s'.peers == s.peers && s'.clusterSize == s.clusterSize
    && s.currentTerm <= s'.currentTerm
    && (forall t | t in s.votedFor :: t in s'.votedFor && s'.votedFor[t] == s.votedFor[t])
    && s.log.entries <= s'.log.entries
    && s.log.commitIndex <= s'.log.commitIndex
  }

  lemma GrowsTransitive(a: RaftState, b: RaftState, c: RaftState)
    requires Grows(a, b) && Grows(b, c)
    ensures Grows(a, c)
  {}

  /** An append carries a slice of the log, together with the term of the entry just before it. */
  ghost predicate IsSliceOf(ae: AppendEntries, log: LogState) {
    && 0 <= ae.prevLogIdx
    && ae.prevLogIdx + |ae.entries| < |log.entries|
    && ae.entries == log.entries[ae.prevLogIdx + 1..ae.prevLogIdx + 1 + |ae.entries|]
    && ae.prevLogTerm == (if ae.prevLogIdx == 0 then 0 else log.entries[ae.prevLogIdx].term)
  }

  /** What the sender can answer for: it asks for votes for itself, a granted vote is on its record, an append comes from a leader's term,
      is a slice of its log and announces no more than it has committed. */
  ghost predicate Vouched(s: RaftState, m: Message) {
    && m.from == s.id
    && (m.vote.Some? ==> m.vote.value.candidateId == s.id)
    && (m.voteResp.Some? && m.voteResp.value.voteGranted ==>
          m.voteResp.value.term in s.votedFor && s.votedFor[m.voteResp.value.term] == m.to)
    && (m.entries.Some? ==>
          && 1 <= m.entries.value.term
          && IsSliceOf(m.entries.value, s.log) && m.entries.value.leaderCommitIdx <= s.log.commitIndex)
  }

  lemma VouchedForever(s: RaftState, s': RaftState, m: Message)
    requires Vouched(s, m) && Grows(s, s')
    ensures Vouched(s', m)
  {}

  lemma VouchedIsAdmissible(s: RaftState, m: Message)
    requires Valid(s) && Vouched(s, m)
    ensures Admissible(m)
  {
    if m.entries.Some? {
      var ae := m.entries.value;
      forall k {:trigger ae.entries[k]} | 0 <= k < |ae.entries| ensures 0 <= ae.entries[k].id <= ae.prevLogIdx + 1 + k {
        assert ae.entries[k] == s.log.entries[ae.prevLogIdx + 1 + k];
      }
    }
  }

  /** Queues are appended to, and everything appended is vouched for. */
  ghost predicate Emits(s: RaftState, s': RaftState) {
    && s.msgs <= s'.msgs && s.msgsAfterAppend <= s'.msgsAfterAppend
    && (forall k {:trigger s'.msgs[k]} | |s.msgs| <= k < |s'.msgs| :: Vouched(s', s'.msgs[k]))
    && (forall k {:trigger s'.msgsAfterAppend[k]} | |s.msgsAfterAppend| <= k < |s'.msgsAfterAppend| ::
          Vouched(s', s'.msgsAfterAppend[k]))
  }

  // ---------- Elections ----------

  predicate CountsVoteOf(s: RaftState, p: int) {
    s.votes.Some? && p in s.votes.value && s.votes.value[p]
  }

  /** A vote counted for s' was already counted, is the node's own, or is the one in m. */
  ghost predicate VotesExplained(s: RaftState, m: Message, s': RaftState) {
    forall p | CountsVoteOf(s', p) :: VoteExplained(s, m, s', p)
  }

  ghost predicate VoteExplained(s: RaftState, m: Message, s': RaftState, p: int) {
    || (CountsVoteOf(s, p) && s'.currentTerm == s.currentTerm)
    || (p == s'.id && s'.currentTerm in s'.votedFor && s'.votedFor[s'.currentTerm] == s'.id)
    || (p == m.from && m.voteResp == Some(RequestVoteResponse(s'.currentTerm, true)))
  }

  ghost predicate ExplainedQuorum(s: RaftState, m: Message, s': RaftState, q: set<int>) {
    |q| >= Quorum(s'.clusterSize) && forall p | p in q :: VoteExplained(s, m, s', p)
  }

  /** A new leader was a candidate whose counted votes reached the quorum, or is alone. */
  ghost predicate LeadershipExplained(s: RaftState, m: Message, s': RaftState) {
    s'.role.Leader? ==>
      || (s.role.Leader? && s'.currentTerm == s.currentTerm)
      || (exists q :: ExplainedQuorum(s, m, s', q))
  }

  // ---------- The log ----------

  /** m is an append with entries that this follower or candidate takes into its log. */
  ghost predicate Accepts(s: RaftState, m: Message)
    requires Valid(s)
  {
    && !s.role.Leader?
    && (m.kind.MsgApp? || m.kind.MsgHeartbeat?)
    && m.entries.Some?
    && |m.entries.value.entries| > 0
    && m.entries.value.term >= s.currentTerm
    && Consistent(s, m.entries.value)
  }

  ghost predicate LogExplained(s: RaftState, m: Message, s': RaftState)
    requires Valid(s)
  {
    && s'.log.lastApplied == s.log.lastApplied && s'.log.stableIndex == s.log.stableIndex
    && (s'.log.entries == s.log.entries
        || (Accepts(s, m) && s'.log.entries == s.log.entries + m.entries.value.entries
            && s'.currentTerm >= m.entries.value.term)
        || (s.role.Leader? && s'.role.Leader? && s'.currentTerm == s.currentTerm
            && s'.log.entries == s.log.entries + NumberEntries(Proposed(m), s.currentTerm, s.log.LastIndex() + 1)))
    && (!s.role.Leader? ==>
          s'.log.commitIndex == s.log.commitIndex
          || (m.entries.Some? && s'.log.commitIndex <= m.entries.value.leaderCommitIdx))
  }

  /** A leader stays leader until its term moves on, and its last index does not fall meanwhile. */
  ghost predicate LeaderStays(s: RaftState, s': RaftState) {
    s.role.Leader? && s'.currentTerm == s.currentTerm ==> s'.role.Leader? && s.log.LastIndex() <= s'.log.LastIndex()
  }

  /** A leader's commit index moves only to the greatest index its progress records and its term allow
      (section 5.4.2 of the Raft paper). */
  ghost predicate CommitExplained(s: RaftState, s': RaftState)
    requires Valid(s')
  {
    s.role.Leader? && s'.log.commitIndex != s.log.commitIndex ==>
      && s'.role.Leader?
      && s'.log.commitIndex <= s'.log.LastIndex()
      && Committable(s', s'.log.commitIndex)
      && forall i | s'.log.commitIndex < i <= s'.log.LastIndex() :: !Committable(s', i)
  }

  // ---------- One step ----------

  ghost predicate StepFacts(s: RaftState, m: Message, s': RaftState)
    requires Valid(s)
  {
    && Valid(s') && Grows(s, s') && Emits(s, s')
    && VotesExplained(s, m, s') && LeadershipExplained(s, m, s') && LogExplained(s, m, s')
    && LeaderStays(s, s') && CommitExplained(s, s')
  }

  lemma CampaignFacts(s: RaftState, m: Message, order: seq<int>)
    requires Valid(s) && !s.role.Leader?
    ensures StepFacts(s, m, Campaign(s, order))
  {
    var s' := Campaign(s, order);
    if s'.role.Leader? {
      var q := {s.id};
      assert ExplainedQuorum(s, m, s', q);
    }
  }

  /** A refusal, possibly after stepping down to a later term. */
  lemma RefusalFacts(s: RaftState, m: Message, term: int, candidate: int)
    requires Valid(s) && !s.role.Leader?
    ensures StepFacts(s, m, SendVoteResponse(AdoptTerm(s, term), candidate, false))
  {}

  /** A vote goes on record before it is sent, and only where nobody else holds that term's vote. */
  lemma GrantFacts(s: RaftState, m: Message, term: int, candidate: int)
    requires Valid(s) && !s.role.Leader? && term >= s.currentTerm
    requires term in s.votedFor ==> s.votedFor[term] == candidate
    ensures var f := AdoptTerm(s, term);
            StepFacts(s, m, SendVoteResponse(f.(votedFor := f.votedFor[term := candidate]), candidate, true))
  {
    var f := AdoptTerm(s, term);
    var g := f.(votedFor := f.votedFor[term := candidate]);
    assert Valid(g) && Grows(s, g) && VotesExplained(s, m, g);
    hide AdoptTerm;
  }

  lemma VoteRequestFacts(s: RaftState, m: Message)
    requires Valid(s) && !s.role.Leader?
    ensures StepFacts(s, m, HandleVoteRequest(s, m))
  {
    if m.vote.Some? {
      var term, candidate := m.vote.value.term, m.vote.value.candidateId;
      RefusalFacts(s, m, term, candidate);
      if term >= s.currentTerm && (term in s.votedFor ==> s.votedFor[term] == candidate) {
        GrantFacts(s, m, term, candidate);
      }
      hide StepFacts;
    } else {
      IdleFacts(s, m);
    }
  }

  lemma IdleFacts(s: RaftState, m: Message)
    requires Valid(s)
    ensures StepFacts(s, m, s)
  {}

  lemma VoteResponseFacts(s: RaftState, m: Message)
    requires Valid(s) && s.role.Candidate?
    ensures StepFacts(s, m, HandleVoteResponse(s, m))
  {
    var s' := HandleVoteResponse(s, m);
    if s'.role.Leader? {
      var q := GrantedBy(s.votes.value[m.from := m.voteResp.value.voteGranted]);
      assert ExplainedQuorum(s, m, s', q);
    }
  }

  /** The follower's side of replication, on the log alone. */
  lemma AppendedLogFacts(l: LogState, ae: AppendEntries)
    requires l.Valid() && Admissible(Internal(MsgApp).(entries := Some(ae)))
    requires ae.prevLogIdx <= 0 || ae.prevLogIdx <= l.LastIndex()
    ensures var r := AppendedLog(l, ae);
            r.Valid() && (r.commitIndex == l.commitIndex || l.commitIndex < r.commitIndex <= ae.leaderCommitIdx)
  {
    AppendKeepsBound(l, if ae.prevLogIdx > 0 then ae.prevLogIdx else 0, ae.entries);
  }

  lemma RejectFacts(s: RaftState, m: Message, term: int)
    requires Valid(s) && !s.role.Leader?
    ensures var f := AdoptTerm(s.(electionTick := 0), term);
            StepFacts(s, m, f.(msgs := f.msgs + [AppendResponse(f, m.from, false)]))
  {}

  lemma AcceptFacts(s: RaftState, m: Message)
    requires Valid(s) && !s.role.Leader? && Admissible(m) && (m.kind.MsgApp? || m.kind.MsgHeartbeat?)
    requires m.entries.Some? && m.entries.value.term >= s.currentTerm && Consistent(s, m.entries.value)
    ensures var f := AdoptTerm(s.(electionTick := 0), m.entries.value.term);
            var g := f.(log := AppendedLog(s.log, m.entries.value));
            if |m.entries.value.entries| == 0 then StepFacts(s, m, g)
            else StepFacts(s, m, g.(msgsAfterAppend := g.msgsAfterAppend + [AppendResponse(g, m.from, true)]))
  {
    AppendedLogFacts(s.log, m.entries.value);
    var f := AdoptTerm(s.(electionTick := 0), m.entries.value.term);
    var g := f.(log := AppendedLog(s.log, m.entries.value));
    assert Valid(g) && Grows(s, g) && LogExplained(s, m, g) && VotesExplained(s, m, g);
    hide AppendedLog, AdoptTerm;
  }

  lemma AppendEntriesCases(s: RaftState, m: Message)
    requires Valid(s) && m.entries.Some?
    ensures var ae := m.entries.value;
            var f := AdoptTerm(s, ae.term);
            var g := f.(log := AppendedLog(s.log, ae));
            HandleAppendEntries(s, m) ==
              if ae.term < s.currentTerm || !Consistent(s, ae) then f.(msgs := f.msgs + [AppendResponse(f, m.from, false)])
              else if |ae.entries| == 0 then g
              else g.(msgsAfterAppend := g.msgsAfterAppend + [AppendResponse(g, m.from, true)])
  {}

  lemma AppendEntriesFacts(s: RaftState, m: Message)
    requires Valid(s) && !s.role.Leader? && Admissible(m) && (m.kind.MsgApp? || m.kind.MsgHeartbeat?)
    ensures StepFacts(s, m, HandleAppendEntries(s.(electionTick := 0), m))
  {
    if m.entries.Some? {
      AppendEntriesCases(s.(electionTick := 0), m);
      if m.entries.value.term < s.currentTerm || !Consistent(s, m.entries.value) {
        RejectFacts(s, m, m.entries.value.term);
      } else {
        AcceptFacts(s, m);
      }
    }
  }

  lemma AppendToVouched(s: RaftState, p: int)
    requires s.log.PositionBound() && ProgressOK(s) && p in s.peers && s.currentTerm >= 1
    ensures Vouched(s, AppendTo(s, p))
  {
    var ae := AppendTo(s, p).entries.value;
    assert ae.entries == s.log.entries[ae.prevLogIdx + 1..ae.prevLogIdx + 1 + |ae.entries|];
  }

  lemma ReplicateFacts(s: RaftState, m: Message, order: seq<int>)
    requires Valid(s) && s.role.Leader? && forall p | p in order :: p in s.peers
    ensures StepFacts(s, m, Replicate(s, m, order))
  {
    var es := Proposed(m);
    var s' := Replicate(s, m, order);
    if |es| > 0 {
      NumberingKeepsBound(s, es);
      var r := s.(log := s.log.Append(NumberEntries(es, s.currentTerm, s.log.LastIndex() + 1)));
      assert ProgressOK(r);
      forall k | 0 <= k < |order| ensures Vouched(s', AppendTo(r, order[k])) {
        assert order[k] in order;
        AppendToVouched(r, order[k]);
      }
    }
  }

  lemma CountingFacts(s: RaftState)
    requires Valid(s) && s.role.Leader?
    ensures var s' := CommitByCounting(s);
            && Valid(s') && CommitExplained(s, s')
            && s' == s.(log := s.log.(commitIndex := s'.log.commitIndex)) && s.log.commitIndex <= s'.log.commitIndex
  {
    var s' := CommitByCounting(s);
    forall i | 0 <= i ensures Committable(s', i) == Committable(s, i) {}
  }

  lemma SuccessFacts(s: RaftState, m: Message, progress: map<int, Progress>)
    requires Valid(s) && s.role.Leader? && Valid(s.(progress := progress))
    ensures StepFacts(s, m, CommitByCounting(s.(progress := progress)))
  {
    CountingFacts(s.(progress := progress));
    hide CommitByCounting, Committable, CommitTarget;
    var s' := CommitByCounting(s.(progress := progress));
    assert Grows(s, s') && LogExplained(s, m, s');
  }

  lemma AppendResponseFacts(s: RaftState, m: Message)
    requires Valid(s) && s.role.Leader?
    ensures StepFacts(s, m, HandleAppendResponse(s, m))
  {
    hide CommitByCounting, Committable, CommitTarget;
    var last := s.log.LastIndex();
    var progress := s.progress[m.from := Progress(last, last + 1)];
    assert ProgressOK(s.(progress := progress));
    SuccessFacts(s, m, progress);
  }

  lemma HeartbeatFacts(s: RaftState, m: Message, order: seq<int>)
    requires Valid(s) && s.role.Leader? && forall p | p in order :: p in s.peers
    ensures StepFacts(s, m, BroadcastHeartbeat(s, order))
  {}

  lemma StepSatisfiesFacts(s: RaftState, m: Message, order: seq<int>)
    requires Valid(s) && Admissible(m) && forall p | p in order :: p in s.peers
    ensures StepFacts(s, m, Step(s, m, order))
  {
    if s.role.Leader? {
      match m.kind {
        case MsgHeartbeat => HeartbeatFacts(s, m, order);
        case MsgApp => ReplicateFacts(s, m, order);
        case MsgAppResp => AppendResponseFacts(s, m);
        case _ =>
      }
    } else {
      match m.kind {
        case MsgVote =>
          if m.vote.None? {
            CampaignFacts(s, m, order);
          } else {
            VoteRequestFacts(s, m);
          }
        case MsgVoteResp =>
          if s.role.Candidate? {
            VoteResponseFacts(s, m);
          }
        case MsgApp => AppendEntriesFacts(s, m);
        case MsgHeartbeat => AppendEntriesFacts(s, m);
        case _ =>
      }
    }
  }

  lemma TimersDoNotMatter(s: RaftState, m: Message, s': RaftState, election: int, heartbeat: int)
    requires Valid(s)
    requires StepFacts(s.(electionTick := election, heartbeatTick := heartbeat), m, s')
    ensures StepFacts(s, m, s')
  {
    var s0 := s.(electionTick := election, heartbeatTick := heartbeat);
    forall q | ExplainedQuorum(s0, m, s', q) ensures ExplainedQuorum(s, m, s', q) {
      forall p | p in q ensures VoteExplained(s, m, s', p) {
        assert VoteExplained(s0, m, s', p);
      }
    }
  }

  lemma TickCases(s: RaftState, order: seq<int>)
    requires Valid(s) && forall p | p in order :: p in s.peers
    ensures Tick(s, order) ==
            if s.role.Leader? then
              if s.heartbeatTick + 1 >= s.heartbeatTimeout then BroadcastHeartbeat(s.(heartbeatTick := 0), order)
              else s.(heartbeatTick := s.heartbeatTick + 1)
            else
              if s.electionTick + 1 >= s.randomizedTimeout then Campaign(s.(electionTick := 0), order)
              else s.(electionTick := s.electionTick + 1)
  {}

  lemma TickSatisfiesFacts(s: RaftState, order: seq<int>)
    requires Valid(s) && forall p | p in order :: p in s.peers
    ensures StepFacts(s, Internal(MsgVote), Tick(s, order))
  {
    var m := Internal(MsgVote);
    TickCases(s, order);
    var a, b := s.(heartbeatTick := s.heartbeatTick + 1), s.(electionTick := s.electionTick + 1);
    assert Valid(a) && Valid(b);
    IdleFacts(a, m);
    IdleFacts(b, m);
    hide StepFacts;
    TimersDoNotMatter(s, m, a, s.electionTick, s.heartbeatTick + 1);
    TimersDoNotMatter(s, m, b, s.electionTick + 1, s.heartbeatTick);
    if s.role.Leader? {
      HeartbeatFacts(s.(heartbeatTick := 0), m, order);
      TimersDoNotMatter(s, m, BroadcastHeartbeat(s.(heartbeatTick := 0), order), s.electionTick, 0);
    } else {
      CampaignFacts(s.(electionTick := 0), m, order);
      TimersDoNotMatter(s, m, Campaign(s.(electionTick := 0), order), 0, s.heartbeatTick);
    }
  }
}
