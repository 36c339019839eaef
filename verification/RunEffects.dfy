/** What steps do, over whole runs: every request is answered, replies tell the truth, and what is queued is
    addressed to a node of the cluster and goes out. */
module RunEffects {
  import opened Types
  import opened RaftLogs
  import opened RaftMachine
  import opened RaftFacts
  import opened Effects
  import opened Cluster
  import opened ElectionSafety
  import opened Driver

  // ---------- Every step of a run ----------

  /** In every run each delivered or proposed message is dealt with as StepDoes says: votes are granted or
      refused, appends taken or refused, responses counted and commits made. */
  lemma RunDoes(ids: set<int>, cs: seq<State>, acts: seq<Action>, i: nat)
    requires IsRun(ids, cs, acts) && i < |acts| && !acts[i].Round? && !acts[i].Timer?
    ensures Actor(acts[i]) in cs[i].hosts && Actor(acts[i]) in cs[i + 1].hosts
    ensures var s, s' := cs[i].hosts[Actor(acts[i])].raft, cs[i + 1].hosts[Actor(acts[i])].raft;
            s.log.PositionBound() && StepDoes(s, Input(acts[i]), s')
  {
    hide HostOK, StepDoes, Step, Tick;
    RunIsSound(ids, cs, acts, i);
    var a := acts[i];
    assert Enabled(cs[i], a) && cs[i + 1] == Next(cs[i], a);
    var s := cs[i].hosts[Actor(a)].raft;
    if a.Deliver? {
      SentIsVouched(ids, cs[i], a.m);
    }
    StepDoesIt(s, Input(a), a.order);
  }

  /** In every run, whoever is asked for a vote and does not lead answers: with a grant exactly if the request is
      not stale and the vote of its term is free or the candidate's. */
  lemma RequestsAreAnswered(ids: set<int>, cs: seq<State>, acts: seq<Action>, i: nat)
    requires IsRun(ids, cs, acts) && i < |acts| && acts[i].Deliver? && acts[i].m.kind.MsgVote? && acts[i].m.vote.Some?
    ensures acts[i].m.to in cs[i].hosts && acts[i].m.to in cs[i + 1].hosts
    ensures var q, h, h' := acts[i].m.vote.value, cs[i].hosts[acts[i].m.to], cs[i + 1].hosts[acts[i].m.to];
            !h.raft.role.Leader? ==>
              var free := q.term in h.raft.votedFor ==> h.raft.votedFor[q.term] == q.candidateId;
              h'.queued == h.queued + [Message(MsgVoteResp, q.candidateId, acts[i].m.to, None,
                                               Some(RequestVoteResponse(Max(h.raft.currentTerm, q.term), q.term >= h.raft.currentTerm && free)),
                                               None, None)]
  {
    hide Step, Tick, HostOK, AppendHandled, VoteCounted, ResponseCounted, ProposalTaken, HeartbeatSent, OthersIgnored, Valid;
    RunDoes(ids, cs, acts, i);
    RunIsSound(ids, cs, acts, i);
    IdOf(ids, acts[i].m.to, cs[i].hosts[acts[i].m.to]);
    assert cs[i + 1] == Next(cs[i], acts[i]);
  }

  // ---------- Who gets what ----------

  /** A new message goes to a peer, or answers the message at hand; one that answers an append is a success
      exactly in the buffer that waits for persistence. */
  ghost predicate LetterOK(s: RaftState, m: Message, x: Message, persisted: bool) {
    && (x.to in s.peers
        || (x.entriesResp.Some? && x.to == m.from)
        || (x.voteResp.Some? && m.vote.Some? && x.to == m.vote.value.candidateId))
    && (x.entriesResp.Some? ==> x.entriesResp.value.success == persisted)
  }

  ghost predicate Letters(s: RaftState, m: Message, before: seq<Message>, after: seq<Message>, persisted: bool) {
    && before <= after
    && forall k {:trigger after[k]} | |before| <= k < |after| :: LetterOK(s, m, after[k], persisted)
  }

  ghost predicate Mailed(s: RaftState, m: Message, s': RaftState) {
    && Letters(s, m, s.msgs, s'.msgs, false)
    && Letters(s, m, s.msgsAfterAppend, s'.msgsAfterAppend, true)
  }

  lemma ToPeers(s: RaftState, m: Message, order: seq<int>, before: seq<Message>, news: seq<Message>, persisted: bool)
    requires IsOrder(order, s.peers) && |news| == |order|
    requires forall k {:trigger news[k]} | 0 <= k < |order| :: news[k].to == order[k] && news[k].entriesResp.None?
    ensures Letters(s, m, before, before + news, persisted)
  {
    var after := before + news;
    forall k {:trigger after[k]} | |before| <= k < |after| ensures LetterOK(s, m, after[k], persisted) {
      assert after[k] == news[k - |before|] && order[k - |before|] in order;
    }
  }

  lemma CampaignMails(s: RaftState, m: Message, order: seq<int>)
    requires Valid(s) && !s.role.Leader? && IsOrder(order, s.peers)
    ensures Mailed(s, m, Campaign(s, order))
  {
    var news := seq(|order|, k requires 0 <= k < |order| => Effects.RequestFor(s, order[k]));
    CampaignIs(s, order, news);
    CampaignState(s, order);
    ToPeers(s, m, order, s.msgs, news, false);
    hide Campaign, Valid, Effects.RequestFor;
  }

  lemma HeartbeatMails(s: RaftState, m: Message, order: seq<int>)
    requires Valid(s) && s.role.Leader? && IsOrder(order, s.peers)
    ensures Mailed(s, m, BroadcastHeartbeat(s, order))
  {
    ToPeers(s, m, order, s.msgs, seq(|order|, k requires 0 <= k < |order| => HeartbeatTo(s, order[k])), false);
  }

  lemma ReplicateMails(s: RaftState, m: Message, order: seq<int>)
    requires Valid(s) && s.role.Leader? && IsOrder(order, s.peers)
    ensures Mailed(s, m, Replicate(s, m, order))
  {
    if Proposed(m) != [] {
      NumberingKeepsBound(s, Proposed(m));
      var r := s.(log := s.log.Append(NumberEntries(Proposed(m), s.currentTerm, s.log.LastIndex() + 1)));
      ProgressKept(s, r.log);
      ToPeers(s, m, order, s.msgsAfterAppend, seq(|order|, k requires 0 <= k < |order| => AppendTo(r, order[k])), true);
      hide AppendTo, LetterOK;
    }
  }

  lemma AnswersMail(s: RaftState, m: Message, s': RaftState)
    requires s.log.PositionBound() && StepDoes(s, m, s')
    requires m.kind.MsgVoteResp? || m.kind.MsgAppResp? || m.kind.MsgUnknown? || m.kind.MsgSnap? || m.kind.MsgHeartbeatResp?
             || (m.kind.MsgVote? && (s.role.Leader? || m.vote.Some?)) || (!s.role.Leader? && (m.kind.MsgApp? || m.kind.MsgHeartbeat?))
    requires s.role.Candidate? ==> s.votes.Some?
    ensures Mailed(s, m, s')
  {
    hide ProposalTaken, HeartbeatSent, Campaigned, ByMajority, IsMajority, Matched;
  }

  lemma StepMails(s: RaftState, m: Message, order: seq<int>)
    requires Valid(s) && Admissible(m) && IsOrder(order, s.peers)
    ensures Mailed(s, m, Step(s, m, order))
  {
    hide StepDoes, Mailed, BroadcastHeartbeat, Replicate, Campaign, HandleAppendEntries, HandleVoteRequest, HandleVoteResponse, HandleAppendResponse;
    StepDoesIt(s, m, order);
    if s.role.Leader? && m.kind.MsgHeartbeat? {
      HeartbeatMails(s, m, order);
    } else if s.role.Leader? && m.kind.MsgApp? {
      ReplicateMails(s, m, order);
    } else if !s.role.Leader? && m.kind.MsgVote? && m.vote.None? {
      CampaignMails(s, m, order);
    } else {
      AnswersMail(s, m, Step(s, m, order));
    }
  }

  lemma TickMails(s: RaftState, m: Message, order: seq<int>)
    requires Valid(s) && IsOrder(order, s.peers)
    ensures Mailed(s, m, Tick(s, order))
  {
    TickCases(s, order);
    ClockIsFree(s, 0, s.heartbeatTick);
    ClockIsFree(s, s.electionTick, 0);
    hide Tick, Campaign, BroadcastHeartbeat, Valid;
    if s.role.Leader? {
      HeartbeatMails(s.(heartbeatTick := 0), m, order);
    } else {
      CampaignMails(s.(electionTick := 0), m, order);
    }
  }

  // ---------- Over runs ----------

  /** A queued message is addressed to a node of the cluster, or is the reply to a client's bare proposal;
      refusals wait for nothing, successes for persistence. */
  ghost predicate PostOK(ids: set<int>, x: Message, persisted: bool) {
    && (x.to in ids || (x.to == 0 && x.entriesResp.Some?))
    && (x.entriesResp.Some? ==> x.entriesResp.value.success == persisted)
  }

  ghost predicate Posted(ids: set<int>, h: Host) {
    && (forall x | x in h.queued :: PostOK(ids, x, false))
    && (forall x | x in h.queuedAfter :: PostOK(ids, x, true))
  }

  ghost predicate AllPosted(ids: set<int>, c: State) {
    forall n | n in c.hosts :: Posted(ids, c.hosts[n])
  }

  lemma MovedMails(ids: set<int>, c: State, a: Action)
    requires Sound(ids, c) && Enabled(c, a) && !a.Round?
    ensures var s := c.hosts[Actor(a)].raft; Mailed(s, Input(a), Moved(s, a))
  {
    hide HostOK, Mailed, Step, Tick;
    var s := c.hosts[Actor(a)].raft;
    if a.Deliver? {
      SentIsVouched(ids, c, a.m);
    }
    if a.Timer? {
      TickMails(s, Input(a), a.order);
    } else {
      StepMails(s, Input(a), a.order);
    }
  }

  lemma NewIsPosted(ids: set<int>, s: RaftState, m: Message, before: seq<Message>, after: seq<Message>, persisted: bool)
    requires Letters(s, m, before, after, persisted) && s.peers <= ids && (m.from in ids || m.from == 0)
    requires m.vote.Some? ==> m.vote.value.candidateId in ids
    ensures forall x | x in Since(before, after) :: PostOK(ids, x, persisted)
  {
    forall x | x in Since(before, after) ensures PostOK(ids, x, persisted) {
      var k :| 0 <= k < |Since(before, after)| && Since(before, after)[k] == x;
      assert after[|before| + k] == x;
    }
  }

  lemma NextPosted(ids: set<int>, c: State, a: Action)
    requires Sound(ids, c) && AllPosted(ids, c) && Enabled(c, a)
    ensures AllPosted(ids, Next(c, a))
  {
    hide HostOK, Moved, PostOK, Letters;
    var n := Actor(a);
    assert Posted(ids, c.hosts[n]);
    if !a.Round? {
      var s := c.hosts[n].raft;
      MovedMails(ids, c, a);
      PeersOf(ids, n, c.hosts[n]);
      if a.Deliver? {
        SentIsVouched(ids, c, a.m);
        PeersOf(ids, a.m.from, c.hosts[a.m.from]);
      }
      NewIsPosted(ids, s, Input(a), s.msgs, Moved(s, a).msgs, false);
      NewIsPosted(ids, s, Input(a), s.msgsAfterAppend, Moved(s, a).msgsAfterAppend, true);
    }
  }

  lemma PeersOf(ids: set<int>, i: int, h: Host)
    requires HostOK(ids, i, h) && i in ids
    ensures h.raft.peers <= ids && h.raft.id == i
  {}

  /** In every run: an append response in the first buffer is a refusal, one in the buffer that waits for
      persistence a success; and all messages but replies to clients are for nodes of the cluster. */
  lemma {:induction false} RepliesTellTheTruth(ids: set<int>, cs: seq<State>, acts: seq<Action>, i: nat)
    requires IsRun(ids, cs, acts) && i < |cs|
    ensures AllPosted(ids, cs[i])
  {
    hide Next, Enabled, HostOK, Posted;
    if i == 0 {
      InitPosted(ids);
    } else {
      RepliesTellTheTruth(ids, cs, acts, i - 1);
      RunIsSound(ids, cs, acts, i - 1);
      NextPosted(ids, cs[i - 1], acts[i - 1]);
    }
  }

  lemma InitPosted(ids: set<int>)
    ensures AllPosted(ids, Init(ids))
  {}

  /** In every run, of what a node has queued its driver sends everything but the replies to clients, to whom
      there is no connection. */
  lemma DriverSendsAll(ids: set<int>, cs: seq<State>, acts: seq<Action>, i: nat, n: int)
    requires IsRun(ids, cs, acts) && i < |cs| && n in cs[i].hosts && 0 !in ids
    ensures forall m | m in cs[i].hosts[n].raft.msgs + cs[i].hosts[n].raft.msgsAfterAppend ::
              IsAddressed(ids, m) || (m.to == 0 && m.entriesResp.Some?)
    ensures var s := cs[i].hosts[n].raft;
            && ((forall m | m in s.msgs :: m.to != 0) ==> Addressed(ids, s.msgs) == s.msgs)
            && ((forall m | m in s.msgsAfterAppend :: m.to != 0) ==> Addressed(ids, s.msgsAfterAppend) == s.msgsAfterAppend)
  {
    RunIsSound(ids, cs, acts, i);
    RepliesTellTheTruth(ids, cs, acts, i);
    var h := cs[i].hosts[n];
    assert HostOK(ids, n, h) && Posted(ids, h);
    hide HostOK, IsRun, Sound;
    assert forall m | m in h.raft.msgs :: m in h.queued;
    assert forall m | m in h.raft.msgsAfterAppend :: m in h.queuedAfter;
    if forall m | m in h.raft.msgs :: m.to != 0 {
      AddressedWhole(ids, h.raft.msgs);
    }
    if forall m | m in h.raft.msgsAfterAppend :: m.to != 0 {
      AddressedWhole(ids, h.raft.msgsAfterAppend);
    }
  }
}
