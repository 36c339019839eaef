/** What each step of a node does, said of the state before and after and of the message, for every role and
    every message: which answer it gives and when, which messages it sends to whom, what becomes of its
    log, its votes and its commit index. */
module Effects {
  import opened Types
  import opened Sets
  import opened RaftLogs
  import opened RaftMachine
  import opened RaftFacts

  function Max(a: int, b: int): int {
    if a < b then b else a
  }

  /** More than half of n. */
  predicate IsMajority(count: int, n: int) {
    2 * count > n
  }

  lemma QuorumIsMajority(n: nat)
    ensures IsMajority(Quorum(n), n) && !IsMajority(Quorum(n) - 1, n)
  {}

  // ---------- Votes ----------

  /** A vote is granted exactly if the request is not stale and nobody else has the node's vote of its term;
      logs play no part. The answer quotes the term the node is then in, and a grant goes on record. */
  ghost predicate VoteAnswered(s: RaftState, m: Message, s': RaftState) {
    !s.role.Leader? && m.kind.MsgVote? && m.vote.Some? ==>
      var q := m.vote.value;
      var granted := q.term >= s.currentTerm && (q.term in s.votedFor ==> s.votedFor[q.term] == q.candidateId);
      && s'.msgs == s.msgs + [Message(MsgVoteResp, q.candidateId, s.id, None,
                                      Some(RequestVoteResponse(Max(s.currentTerm, q.term), granted)), None, None)]
      && s'.msgsAfterAppend == s.msgsAfterAppend
      && s'.currentTerm == Max(s.currentTerm, q.term)
      && s'.votedFor == (if granted then s.votedFor[q.term := q.candidateId] else s.votedFor)
      && (if q.term > s.currentTerm then s'.role.Follower? && s'.electionTick == 0
          else s'.role == s.role && s'.votes == s.votes && s'.electionTick == s.electionTick)
      && s'.log == s.log
  }

  /** A candidate leads exactly once a majority of the cluster has granted, its own vote included, and then
      knows nothing yet of its peers' logs. */
  ghost predicate VoteCounted(s: RaftState, m: Message, s': RaftState) {
    s.role.Candidate? && m.kind.MsgVoteResp? && m.voteResp.Some? && s.votes.Some? ==>
      var r := m.voteResp.value;
      var ballot := s.votes.value[m.from := r.voteGranted];
      var yes := set p | p in ballot && ballot[p];
      && s'.log == s.log && s'.msgs == s.msgs && s'.msgsAfterAppend == s.msgsAfterAppend && s'.votedFor == s.votedFor
      && if r.term > s.currentTerm then s'.role.Follower? && s'.currentTerm == r.term && s'.electionTick == 0
         else if r.term < s.currentTerm then s' == s
         else if IsMajority(|yes|, s.clusterSize) then
           && s'.role.Leader? && s'.currentTerm == s.currentTerm && s'.heartbeatTick == 0
           && forall p | p in s.peers :: p in s'.progress && s'.progress[p] == Progress(0, s.log.LastIndex() + 1)
         else s' == s.(votes := Some(ballot))
  }

  // ---------- The follower's side of replication ----------

  /** The log holds an entry at the position before the new ones, with the term the sender quotes. */
  predicate Matched(l: LogState, ae: AppendEntries)
    requires l.PositionBound()
  {
    ae.prevLogIdx <= 0 || (ae.prevLogIdx <= l.LastIndex() && l.entries[ae.prevLogIdx].term == ae.prevLogTerm)
  }

  function Reply(s: RaftState, to: int, term: int, success: bool): Message {
    Message(MsgAppResp, to, s.id, None, None, None, Some(AppendEntriesResponse(term, success)))
  }

  /** A stale or unmatched append changes no log and is answered at once with a failure; any other is appended
      whole, moves the commit index towards the sender's, and is answered with a success after
      persistence if it carried entries. */
  ghost predicate AppendHandled(s: RaftState, m: Message, s': RaftState)
    requires s.log.PositionBound()
  {
    !s.role.Leader? && (m.kind.MsgApp? || m.kind.MsgHeartbeat?) && m.entries.Some? ==>
      var ae := m.entries.value;
      var term := Max(s.currentTerm, ae.term);
      && s'.electionTick == 0 && s'.currentTerm == term && s'.votedFor == s.votedFor
      && (if ae.term > s.currentTerm then s'.role.Follower? else s'.role == s.role && s'.votes == s.votes)
      && if ae.term < s.currentTerm || !Matched(s.log, ae) then
           && s'.log == s.log && s'.msgsAfterAppend == s.msgsAfterAppend
           && s'.msgs == s.msgs + [Reply(s, m.from, term, false)]
         else
           && s'.log.entries == s.log.entries + ae.entries
           && s'.log.commitIndex == Max(s.log.commitIndex, Min(ae.leaderCommitIdx, s'.log.LastIndex()))
           && s'.msgs == s.msgs
           && s'.msgsAfterAppend == if ae.entries == [] then s.msgsAfterAppend
                                    else s.msgsAfterAppend + [Reply(s, m.from, term, true)]
  }

  // ---------- The leader's side of replication ----------

  /** A majority of the cluster, the leader included, covers index i, and its entry is of the current term. */
  ghost predicate ByMajority(s: RaftState, i: int) {
    && 0 < i < |s.log.entries| && s.log.entries[i].term == s.currentTerm
    && IsMajority(1 + |set p | p in s.progress && s.progress[p].matchIndex >= i|, s.clusterSize)
  }

  /** After a success the commit index is at the greatest index that a majority covers in the current term, or
      where it was; nothing above it is left that a majority covers. After a failure the leader will
      start one entry earlier. */
  ghost predicate ResponseCounted(s: RaftState, m: Message, s': RaftState) {
    s.role.Leader? && m.kind.MsgAppResp? && m.entriesResp.Some? ==>
      var r := m.entriesResp.value;
      var last := s.log.LastIndex();
      && s'.log.entries == s.log.entries && s'.msgs == s.msgs && s'.msgsAfterAppend == s.msgsAfterAppend
      && if r.currentTerm > s.currentTerm then s'.role.Follower? && s'.currentTerm == r.currentTerm && s'.log == s.log && s'.electionTick == 0
         else if r.currentTerm < s.currentTerm then s' == s
         else if r.success then
           && s'.role.Leader? && s'.currentTerm == s.currentTerm
           && s'.progress == s.progress[m.from := Progress(last, last + 1)]
           && (s'.log.commitIndex == s.log.commitIndex
               || (s.log.commitIndex < s'.log.commitIndex <= last && ByMajority(s', s'.log.commitIndex)))
           && forall i | s'.log.commitIndex < i <= last :: !ByMajority(s', i)
         else
           var next := if m.from in s.progress then s.progress[m.from].nextIndex else 0;
           var match' := if m.from in s.progress then s.progress[m.from].matchIndex else 0;
           s' == s.(progress := s.progress[m.from := Progress(match', if next > 1 then next - 1 else next)])
  }

  /** One message more for every peer, the one meant for it, and no others. */
  ghost predicate ToEachPeer(before: seq<Message>, after: seq<Message>, letters: map<int, Message>) {
    && before <= after && |after| == |before| + |letters|
    && forall p | p in letters :: letters[p] in after[|before|..]
  }

  function TermAt(l: LogState, i: int): int {
    if 0 < i < |l.entries| then l.entries[i].term else 0
  }

  /** A leader numbers what it is sent, appends it, and sends every peer everything from its next index on. */
  ghost predicate ProposalTaken(s: RaftState, m: Message, s': RaftState) {
    s.role.Leader? && m.kind.MsgApp? ==>
      var es := if m.entries.Some? then m.entries.value.entries else [];
      var first := s.log.LastIndex() + 1;
      if es == [] then s' == s
      else
        && s'.msgs == s.msgs && s'.role.Leader? && s'.currentTerm == s.currentTerm && s'.progress == s.progress
        && |s'.log.entries| == |s.log.entries| + |es| && s.log.entries <= s'.log.entries && s'.log.commitIndex == s.log.commitIndex
        && (forall k {:trigger es[k]} | 0 <= k < |es| :: s'.log.entries[|s.log.entries| + k] == Log(s.currentTerm, first + k, es[k].data))
        && ToEachPeer(s.msgsAfterAppend, s'.msgsAfterAppend, map p | p in s.peers :: AppendFor(s, s'.log, p))
  }

  /** The entries from the peer's next index to the end, after the entry before them. */
  function AppendFor(s: RaftState, log: LogState, p: int): Message {
    var next := if p in s.progress then s.progress[p].nextIndex else 0;
    Message(MsgApp, p, s.id, None, None,
            Some(AppendEntries(s.currentTerm, s.id, next - 1, TermAt(log, next - 1),
                               Between(log.entries, next, log.LastIndex() + 1), log.commitIndex)), None)
  }

  function HeartbeatFor(s: RaftState, p: int): Message {
    var matched := if p in s.progress then s.progress[p].matchIndex else 0;
    Message(MsgApp, p, s.id, None, None,
            Some(AppendEntries(s.currentTerm, s.id, matched, TermAt(s.log, matched), [], s.log.commitIndex)), None)
  }

  function RequestFor(s: RaftState, p: int): Message {
    var last := if |s.log.entries| <= 1 then UNUSED else s.log.entries[|s.log.entries| - 1];
    Message(MsgVote, p, s.id, Some(RequestVote(s.currentTerm + 1, s.id, last.id, last.term)), None, None, None)
  }

  function Between(es: seq<Log>, from: int, to: int): seq<Log> {
    if 0 <= from <= to <= |es| then es[from..to] else []
  }

  ghost predicate HeartbeatSent(s: RaftState, m: Message, s': RaftState) {
    s.role.Leader? && m.kind.MsgHeartbeat? ==>
      && s' == s.(msgs := s'.msgs)
      && ToEachPeer(s.msgs, s'.msgs, map p | p in s.peers :: HeartbeatFor(s, p))
  }

  // ---------- Campaigns ----------

  /** The node enters the next term, votes for itself, and asks every peer; alone it leads at once. */
  ghost predicate Campaigned(s: RaftState, s': RaftState) {
    var t := s.currentTerm + 1;
    && s'.currentTerm == t && s'.votedFor == s.votedFor[t := s.id] && s'.log == s.log && s'.electionTick == 0
    && s'.msgsAfterAppend == s.msgsAfterAppend
    && if s.clusterSize == 1 then s'.role.Leader? && s'.msgs == s.msgs && s'.heartbeatTick == 0
       else
         && s'.role.Candidate? && s'.votes == Some(map[s.id := true])
         && ToEachPeer(s.msgs, s'.msgs, map p | p in s.peers :: RequestFor(s, p))
  }

  /** Whatever a role has no use for leaves it as it was. */
  ghost predicate OthersIgnored(s: RaftState, m: Message, s': RaftState) {
    && (s.role.Leader? && !m.kind.MsgHeartbeat? && !m.kind.MsgApp? && !m.kind.MsgAppResp? ==> s' == s)
    && (s.role.Leader? && m.kind.MsgAppResp? && m.entriesResp.None? ==> s' == s)
    && (s.role.Follower? && !m.kind.MsgVote? && !m.kind.MsgApp? && !m.kind.MsgHeartbeat? ==> s' == s)
    && (s.role.Candidate? && !m.kind.MsgVote? && !m.kind.MsgApp? && !m.kind.MsgHeartbeat? && !m.kind.MsgVoteResp? ==> s' == s)
    && (s.role.Candidate? && m.kind.MsgVoteResp? && m.voteResp.None? ==> s' == s)
    && (!s.role.Leader? && (m.kind.MsgApp? || m.kind.MsgHeartbeat?) && m.entries.None? ==> s' == s.(electionTick := 0))
  }

  ghost predicate StepDoes(s: RaftState, m: Message, s': RaftState)
    requires s.log.PositionBound()
  {
    && VoteAnswered(s, m, s') && VoteCounted(s, m, s') && AppendHandled(s, m, s') && ResponseCounted(s, m, s')
    && ProposalTaken(s, m, s') && HeartbeatSent(s, m, s') && OthersIgnored(s, m, s')
    && (!s.role.Leader? && m.kind.MsgVote? && m.vote.None? ==> Campaigned(s, s'))
  }

  // ---------- Every step does so ----------

  lemma {:induction false} OrderIsSize(order: seq<int>, peers: set<int>)
    requires IsOrder(order, peers)
    ensures |order| == |peers|
  {
    if order == [] {
      PickOne(peers);
    } else {
      var last := |order| - 1;
      assert order == order[..last] + [order[last]];
      assert forall p | p in order[..last] :: p in order && p != order[last];
      OrderIsSize(order[..last], peers - {order[last]});
    }
  }

  lemma BroadcastReaches(before: seq<Message>, order: seq<int>, peers: set<int>, news: seq<Message>, letters: map<int, Message>)
    requires IsOrder(order, peers) && |news| == |order| && letters.Keys == peers
    requires forall k {:trigger news[k]} | 0 <= k < |order| :: order[k] in letters && news[k] == letters[order[k]]
    ensures ToEachPeer(before, before + news, letters)
  {
    OrderIsSize(order, peers);
    assert |letters| == |letters.Keys|;
    assert (before + news)[|before|..] == news;
    forall p | p in letters ensures letters[p] in news {
      var k :| 0 <= k < |order| && order[k] == p;
      assert news[k] == letters[p];
    }
  }

  lemma VoteRequestDoes(s: RaftState, m: Message, order: seq<int>)
    requires Valid(s) && !s.role.Leader? && m.kind.MsgVote? && m.vote.Some?
    ensures VoteAnswered(s, m, StepFollower(s, m, order))
    ensures s.role.Candidate? ==> VoteAnswered(s, m, StepCandidate(s, m, order))
  {}

  lemma VoteResponseDoes(s: RaftState, m: Message, order: seq<int>)
    requires Valid(s) && s.role.Candidate? && m.kind.MsgVoteResp?
    ensures VoteCounted(s, m, StepCandidate(s, m, order)) && OthersIgnored(s, m, StepCandidate(s, m, order))
  {
    if m.voteResp.Some? {
      var ballot := s.votes.value[m.from := m.voteResp.value.voteGranted];
      assert GrantedBy(ballot) == set p | p in ballot && ballot[p];
    }
  }

  lemma AppendDoes(s: RaftState, m: Message)
    requires Valid(s) && !s.role.Leader? && (m.kind.MsgApp? || m.kind.MsgHeartbeat?) && Admissible(m)
    ensures var s' := HandleAppendEntries(s.(electionTick := 0), m); AppendHandled(s, m, s') && OthersIgnored(s, m, s')
  {
    if m.entries.Some? {
      AppendEntriesCases(s.(electionTick := 0), m);
      CommitFollows(s.log, m.entries.value);
      hide HandleAppendEntries, AppendedLog;
    }
  }

  /** The follower's commit index moves towards the sender's as far as the grown log reaches. */
  lemma CommitFollows(l: LogState, ae: AppendEntries)
    requires l.Valid()
    ensures var r := AppendedLog(l, ae);
            r == l.(entries := l.entries + ae.entries, commitIndex := r.commitIndex)
            && r.commitIndex == Max(l.commitIndex, Min(ae.leaderCommitIdx, r.LastIndex()))
  {}

  lemma CountDoes(s: RaftState, m: Message)
    requires Valid(s) && s.role.Leader? && m.kind.MsgAppResp?
    ensures ResponseCounted(s, m, HandleAppendResponse(s, m)) && OthersIgnored(s, m, HandleAppendResponse(s, m))
  {
    if m.entriesResp.Some? && m.entriesResp.value.currentTerm == s.currentTerm && m.entriesResp.value.success {
      var last := s.log.LastIndex();
      CommitsByMajority(s.(progress := s.progress[m.from := Progress(last, last + 1)]));
      hide CommitByCounting, Committable, CommitTarget, ByMajority;
    }
  }

  lemma CommitsByMajority(s: RaftState)
    requires s.log.Valid() && s.clusterSize >= 1
    ensures var s' := CommitByCounting(s);
            && s' == s.(log := s.log.(commitIndex := s'.log.commitIndex))
            && (s'.log.commitIndex == s.log.commitIndex
                || (s.log.commitIndex < s'.log.commitIndex <= s.log.LastIndex() && ByMajority(s', s'.log.commitIndex)))
            && forall i | s'.log.commitIndex < i <= s.log.LastIndex() :: !ByMajority(s', i)
  {
    var s' := CommitByCounting(s);
    forall i | 0 < i <= s.log.LastIndex() ensures Committable(s, i) <==> ByMajority(s', i) {
      assert (set p | p in s'.progress && s'.progress[p].matchIndex >= i) == set p | p in s.progress && s.progress[p].matchIndex >= i;
    }
  }

  lemma ProposalDoes(s: RaftState, m: Message, order: seq<int>)
    requires Valid(s) && s.role.Leader? && m.kind.MsgApp? && IsOrder(order, s.peers)
    ensures ProposalTaken(s, m, Replicate(s, m, order))
  {
    var es := Proposed(m);
    if es != [] {
      NumberingKeepsBound(s, es);
      var r := s.(log := s.log.Append(NumberEntries(es, s.currentTerm, s.log.LastIndex() + 1)));
      ProgressKept(s, r.log);
      AppendsReach(s, r, order);
      hide ToEachPeer, AppendFor, AppendTo;
    }
  }

  lemma AppendsReach(s: RaftState, r: RaftState, order: seq<int>)
    requires r == s.(log := r.log) && r.log.PositionBound() && ProgressOK(r) && IsOrder(order, s.peers)
    ensures forall p | p in order :: p in r.peers
    ensures ToEachPeer(s.msgsAfterAppend, s.msgsAfterAppend + seq(|order|, k requires 0 <= k < |order| => AppendTo(r, order[k])),
                       map p | p in s.peers :: AppendFor(s, r.log, p))
  {
    var news := seq(|order|, k requires 0 <= k < |order| => AppendTo(r, order[k]));
    forall k {:trigger news[k]} | 0 <= k < |order| ensures order[k] in s.peers && news[k] == AppendFor(s, r.log, order[k]) {
      assert order[k] in order;
    }
    BroadcastReaches(s.msgsAfterAppend, order, s.peers, news, map p | p in s.peers :: AppendFor(s, r.log, p));
  }

  lemma HeartbeatDoes(s: RaftState, m: Message, order: seq<int>)
    requires Valid(s) && s.role.Leader? && m.kind.MsgHeartbeat? && IsOrder(order, s.peers)
    ensures HeartbeatSent(s, m, BroadcastHeartbeat(s, order))
  {
    var news := seq(|order|, k requires 0 <= k < |order| => HeartbeatTo(s, order[k]));
    forall k {:trigger news[k]} | 0 <= k < |order| ensures order[k] in s.peers && news[k] == HeartbeatFor(s, order[k]) {
      assert order[k] in order;
    }
    BroadcastReaches(s.msgs, order, s.peers, news, map p | p in s.peers :: HeartbeatFor(s, p));
  }

  lemma CampaignDoes(s: RaftState, order: seq<int>)
    requires Valid(s) && !s.role.Leader? && IsOrder(order, s.peers)
    ensures Campaigned(s, Campaign(s, order))
  {
    var news := seq(|order|, k requires 0 <= k < |order| => RequestFor(s, order[k]));
    RequestsReach(s, order, news);
    CampaignIs(s, order, news);
    CampaignState(s, order);
    hide ToEachPeer, RequestFor, Campaign, IsOrder, Valid;
  }

  lemma CampaignState(s: RaftState, order: seq<int>)
    requires s.electionTimeout > 0
    ensures var s', t := Campaign(s, order), s.currentTerm + 1;
            && s'.currentTerm == t && s'.votedFor == s.votedFor[t := s.id] && s'.log == s.log && s'.electionTick == 0
            && s'.msgsAfterAppend == s.msgsAfterAppend
            && if s.clusterSize == 1 then s'.role.Leader? && s'.msgs == s.msgs && s'.heartbeatTick == 0
               else s'.role.Candidate? && s'.votes == Some(map[s.id := true])
  {}

  lemma RequestsReach(s: RaftState, order: seq<int>, news: seq<Message>)
    requires IsOrder(order, s.peers)
    requires |news| == |order| && forall k {:trigger news[k]} | 0 <= k < |order| :: news[k] == RequestFor(s, order[k])
    ensures ToEachPeer(s.msgs, s.msgs + news, map p | p in s.peers :: RequestFor(s, p))
  {
    hide ToEachPeer, RequestFor;
    forall k {:trigger news[k]} | 0 <= k < |order| ensures order[k] in s.peers {
      assert order[k] in order;
    }
    BroadcastReaches(s.msgs, order, s.peers, news, map p | p in s.peers :: RequestFor(s, p));
  }

  lemma CampaignIs(s: RaftState, order: seq<int>, news: seq<Message>)
    requires s.electionTimeout > 0
    requires |news| == |order| && forall k {:trigger news[k]} | 0 <= k < |order| :: news[k] == RequestFor(s, order[k])
    ensures s.clusterSize != 1 ==> Campaign(s, order).msgs == s.msgs + news
  {
    if s.clusterSize != 1 {
      var sent := Campaign(s, order).msgs;
      assert |sent| == |s.msgs| + |news|;
      assert forall k | 0 <= k < |news| :: sent[|s.msgs| + k] == RequestFor(s, order[k]);
      assert forall k | 0 <= k < |s.msgs| :: sent[k] == s.msgs[k];
    }
  }

  lemma StepDoesIt(s: RaftState, m: Message, order: seq<int>)
    requires Valid(s) && Admissible(m) && IsOrder(order, s.peers)
    ensures StepDoes(s, m, Step(s, m, order))
  {
    hide ToEachPeer, ByMajority, IsMajority, AppendFor, HeartbeatFor, RequestFor, HandleAppendEntries, HandleAppendResponse,
         HandleVoteRequest, HandleVoteResponse, Replicate, BroadcastHeartbeat, Campaign;
    if s.role.Leader? {
      match m.kind {
        case MsgHeartbeat => HeartbeatDoes(s, m, order);
        case MsgApp => ProposalDoes(s, m, order);
        case MsgAppResp => CountDoes(s, m);
        case _ =>
      }
    } else {
      match m.kind {
        case MsgVote =>
          if m.vote.None? {
            CampaignDoes(s, order);
          } else {
            VoteRequestDoes(s, m, order);
          }
        case MsgVoteResp =>
          if s.role.Candidate? {
            VoteResponseDoes(s, m, order);
          }
        case MsgApp => AppendDoes(s, m);
        case MsgHeartbeat => AppendDoes(s, m);
        case _ =>
      }
    }
  }

  lemma LeaderTickDoes(s: RaftState, order: seq<int>)
    requires Valid(s) && s.role.Leader? && IsOrder(order, s.peers)
    ensures var s' := Tick(s, order);
            if s.heartbeatTick + 1 >= s.heartbeatTimeout
            then HeartbeatSent(s.(heartbeatTick := 0), Internal(MsgHeartbeat), s')
            else s' == s.(heartbeatTick := s.heartbeatTick + 1)
  {
    TickCases(s, order);
    ClockIsFree(s, s.electionTick, 0);
    hide Tick, BroadcastHeartbeat, HeartbeatSent, Valid;
    HeartbeatDoes(s.(heartbeatTick := 0), Internal(MsgHeartbeat), order);
  }

  lemma ClockIsFree(s: RaftState, election: int, heartbeat: int)
    requires Valid(s)
    ensures Valid(s.(electionTick := election, heartbeatTick := heartbeat)) && s.randomizedTimeout == s.electionTimeout
  {}

  lemma OtherTickDoes(s: RaftState, order: seq<int>)
    requires Valid(s) && !s.role.Leader? && IsOrder(order, s.peers)
    ensures var s' := Tick(s, order);
            if s.electionTick + 1 >= s.electionTimeout then Campaigned(s.(electionTick := 0), s')
            else s' == s.(electionTick := s.electionTick + 1)
  {
    TickCases(s, order);
    ClockIsFree(s, 0, s.heartbeatTick);
    hide Tick, Campaign, Campaigned, Valid;
    CampaignDoes(s.(electionTick := 0), order);
  }
}
