/** The mutable Raft object of repl/sm.go. Every method is proved against its function in
    RaftMachine; `order` is the order in which Go happens to range over the peer map. */
module RaftNode {
  import opened Types
  import opened RaftLogs
  import opened Sets
  import M = RaftMachine
  import opened RaftMachine

  class Raft {
    const id: int
    var currentTerm: int
    var votedFor: map<int, int>
    var role: Role
    var randomizedTimeout: int
    var electionTick: int
    var heartbeatTick: int
    const electionTimeout: int
    const heartbeatTimeout: int
    const clusterSize: int
    const peers: set<int>
    var votes: Option<map<int, bool>>
    var msgs: seq<Message>
    var msgsAfterAppend: seq<Message>
    const raftLog: RaftLog
    var progress: map<int, Progress>

    ghost function View(): RaftState
      reads this, raftLog
    {
      RaftState(id, currentTerm, votedFor, role, randomizedTimeout, electionTick, heartbeatTick,
                electionTimeout, heartbeatTimeout, clusterSize, peers, votes, msgs, msgsAfterAppend,
                raftLog.View(), progress)
    }

    constructor (id: int, peers: set<int>)
      ensures View() == NewRaft(id, peers) && Valid(View())
      ensures fresh(raftLog)
    {
      this.id, this.peers := id, peers;
      currentTerm, votedFor := 0, map[];
      electionTimeout, heartbeatTimeout := ELECTION_TIMEOUT, HEARTBEAT_TIMEOUT;
      clusterSize := |peers| + 1;
      heartbeatTick := 0;
      msgs, msgsAfterAppend, progress := [], [], map[];
      raftLog := new RaftLog();
      new;
      BecomeFollower(0);
      electionTick := GoRemainder(id, electionTimeout);
    }

    method BecomeFollower(term: int)
      requires electionTimeout > 0
      modifies this
      ensures View() == M.BecomeFollower(old(View()), term)
    {
      role, currentTerm, electionTick := Follower, term, 0;
      if electionTimeout > 0 {
        randomizedTimeout := electionTimeout + electionTick % electionTimeout;
      }
      votes := None;
    }

    method BecomeCandidate()
      requires electionTimeout > 0
      modifies this
      ensures View() == M.BecomeCandidate(old(View()))
    {
      role, electionTick := Candidate, 0;
      if electionTimeout > 0 {
        randomizedTimeout := electionTimeout + electionTick % electionTimeout;
      }
      votes := Some(map[]);
    }

    method BecomeLeader()
      modifies this
      ensures View() == M.BecomeLeader(old(View()))
    {
      role, heartbeatTick, votes := Leader, 0, None;
      ResetProgress(raftLog.LastIndex());
    }

    method ResetProgress(lastIndex: int)
      modifies this`progress
      ensures progress == old(progress) + map p | p in peers :: Progress(0, lastIndex + 1)
    {
      var todo := peers;
      while todo != {}
        invariant todo <= peers
        invariant progress == old(progress) + map p | p in peers - todo :: Progress(0, lastIndex + 1)
        decreases todo
        modifies this`progress
      {
        PickOne(todo);
        var p :| p in todo;
        progress := progress[p := Progress(0, lastIndex + 1)];
        todo := todo - {p};
      }
      assert peers - todo == peers;
    }

    method Campaign(order: seq<int>)
      requires electionTimeout > 0
      modifies this
      ensures View() == M.Campaign(old(View()), order)
    {
      BecomeCandidate();
      currentTerm := currentTerm + 1;
      votedFor := votedFor[currentTerm := id];
      votes := Some(votes.value[id := true]);
      if clusterSize == 1 {
        BecomeLeader();
        return;
      }
      ghost var c := View();
      for k := 0 to |order|
        invariant View() == c.(msgs := c.msgs + seq(k, j requires 0 <= j < k => VoteRequestTo(c, order[j])))
      {
        msgs := msgs + [Message(MsgVote, order[k], id,
                                Some(RequestVote(currentTerm, id, raftLog.LastIndex(), raftLog.LastTerm())),
                                None, None, None)];
      }
    }

    method SendVoteResponse(to: int, granted: bool, term: int)
      requires term == currentTerm
      modifies this`msgs
      ensures View() == M.SendVoteResponse(old(View()), to, granted)
    {
      msgs := msgs + [Message(MsgVoteResp, to, id, None, Some(RequestVoteResponse(term, granted)), None, None)];
    }

    method HandleVoteRequest(m: Message)
      requires electionTimeout > 0
      modifies this
      ensures View() == M.HandleVoteRequest(old(View()), m)
    {
      if m.vote.None? {
        return;
      }
      var reqTerm, candidateId := m.vote.value.term, m.vote.value.candidateId;
      if reqTerm < currentTerm {
        SendVoteResponse(candidateId, false, currentTerm);
        return;
      }
      if reqTerm > currentTerm {
        BecomeFollower(reqTerm);
      }
      if reqTerm in votedFor {
        if votedFor[reqTerm] != candidateId {
          SendVoteResponse(candidateId, false, currentTerm);
          return;
        }
      }
      votedFor := votedFor[reqTerm := candidateId];
      SendVoteResponse(candidateId, true, currentTerm);
    }

    method HandleVoteResponse(m: Message)
      requires electionTimeout > 0 && votes.Some?
      modifies this
      ensures View() == M.HandleVoteResponse(old(View()), m)
    {
      if m.voteResp.None? {
        return;
      }
      var respTerm := m.voteResp.value.term;
      if respTerm < currentTerm {
        return;
      }
      if respTerm > currentTerm {
        BecomeFollower(respTerm);
        return;
      }
      votes := Some(votes.value[m.from := m.voteResp.value.voteGranted]);
      var granted, todo := 0, votes.value.Keys;
      while todo != {}
        invariant todo <= votes.value.Keys
        invariant granted == |set p | p in votes.value.Keys - todo && votes.value[p]|
        decreases todo
        modifies {}
      {
        PickOne(todo);
        var p :| p in todo;
        ghost var before := set q | q in votes.value.Keys - todo && votes.value[q];
        ghost var after := set q | q in votes.value.Keys - (todo - {p}) && votes.value[q];
        assert after == if votes.value[p] then before + {p} else before;
        if votes.value[p] {
          granted := granted + 1;
        }
        todo := todo - {p};
      }
      assert GrantedBy(votes.value) == set p | p in votes.value.Keys - {} && votes.value[p];
      if granted >= clusterSize / 2 + 1 {
        BecomeLeader();
      }
    }

    method SendAppendResponse(to: int, success: bool)
      modifies this`msgs
      ensures View() == old(View()).(msgs := old(msgs) + [AppendResponse(old(View()), to, success)])
    {
      msgs := msgs + [Message(MsgAppResp, to, id, None, None, None, Some(AppendEntriesResponse(currentTerm, success)))];
    }

    method SendAppendResponseAfterPersist(to: int, success: bool)
      modifies this`msgsAfterAppend
      ensures View() == old(View()).(msgsAfterAppend := old(msgsAfterAppend) + [AppendResponse(old(View()), to, success)])
    {
      msgsAfterAppend := msgsAfterAppend
                       + [Message(MsgAppResp, to, id, None, None, None, Some(AppendEntriesResponse(currentTerm, success)))];
    }

    method HandleAppendEntries(m: Message)
      requires electionTimeout > 0 && raftLog.View().PositionBound()
      modifies this, raftLog
      ensures View() == M.HandleAppendEntries(old(View()), m)
    {
      if m.entries.None? {
        return;
      }
      var ae := m.entries.value;
      if ae.term < currentTerm {
        SendAppendResponse(m.from, false);
        return;
      }
      if ae.term > currentTerm {
        BecomeFollower(ae.term);
      }
      if ae.prevLogIdx > 0 && (ae.prevLogIdx > raftLog.LastIndex() || raftLog.Term(ae.prevLogIdx) != ae.prevLogTerm) {
        SendAppendResponse(m.from, false);
        return;
      }
      AcceptEntries(ae, m.from);
    }

    method AcceptEntries(ae: AppendEntries, from: int)
      modifies this, raftLog
      ensures View() == M.AcceptEntries(old(View()), ae, from)
    {
      if |ae.entries| > 0 {
        raftLog.Append(ae.entries);
      }
      if ae.leaderCommitIdx > raftLog.commitIndex {
        var _ := raftLog.MaybeCommit(Min(ae.leaderCommitIdx, raftLog.LastIndex()));
      }
      if |ae.entries| > 0 {
        SendAppendResponseAfterPersist(from, true);
      }
    }

    /** Bottom-up scan; the result is the greatest committable index (section 5.4.2 of the Raft paper). */
    method MaybeCommit()
      requires raftLog.View().PositionBound() && 0 <= raftLog.commitIndex
      modifies raftLog
      ensures View() == M.CommitByCounting(old(View()))
      ensures raftLog.commitIndex != old(raftLog.commitIndex) ==>
                && old(raftLog.commitIndex) < raftLog.commitIndex <= old(raftLog.LastIndex())
                && Committable(old(View()), raftLog.commitIndex)
      ensures forall i | raftLog.commitIndex < i <= old(raftLog.LastIndex()) :: !Committable(old(View()), i)
    {
      ghost var s := View();
      var index := raftLog.commitIndex + 1;
      while index <= raftLog.LastIndex()
        invariant s.log.commitIndex <= raftLog.commitIndex < index
        invariant View() == s.(log := s.log.(commitIndex := raftLog.commitIndex))
        invariant raftLog.commitIndex > s.log.commitIndex ==>
                    raftLog.commitIndex <= s.log.LastIndex() && Committable(s, raftLog.commitIndex)
        invariant forall i | raftLog.commitIndex < i < index :: !Committable(s, i)
      {
        var replicatedCount := CountReplicated(index);
        var quorum := clusterSize / 2 + 1;
        assert Committable(s, index) <==> replicatedCount >= quorum && raftLog.Term(index) == currentTerm;
        hide Committable;
        if replicatedCount >= quorum && raftLog.Term(index) == currentTerm {
          var _ := raftLog.MaybeCommit(index);
        }
        index := index + 1;
      }
    }

    /** The leader itself plus every progress record that covers the index. */
    method CountReplicated(index: int) returns (replicatedCount: nat)
      ensures replicatedCount == 1 + |set p | p in progress && progress[p].matchIndex >= index|
    {
      replicatedCount := 1;
      var todo := progress.Keys;
      while todo != {}
        invariant todo <= progress.Keys
        invariant replicatedCount == 1 + |set p | p in progress.Keys - todo && progress[p].matchIndex >= index|
        decreases todo
        modifies {}
      {
        PickOne(todo);
        var p :| p in todo;
        ghost var before := set q | q in progress.Keys - todo && progress[q].matchIndex >= index;
        ghost var after := set q | q in progress.Keys - (todo - {p}) && progress[q].matchIndex >= index;
        assert after == if progress[p].matchIndex >= index then before + {p} else before;
        if progress[p].matchIndex >= index {
          replicatedCount := replicatedCount + 1;
        }
        todo := todo - {p};
      }
      assert (set p | p in progress.Keys - {} && progress[p].matchIndex >= index)
          == (set p | p in progress && progress[p].matchIndex >= index);
    }

    method HandleAppendResponse(m: Message)
      requires electionTimeout > 0 && raftLog.View().PositionBound() && 0 <= raftLog.commitIndex
      modifies this, raftLog
      ensures View() == M.HandleAppendResponse(old(View()), m)
    {
      if m.entriesResp.None? {
        return;
      }
      var resp := m.entriesResp.value;
      if resp.currentTerm > currentTerm {
        BecomeFollower(resp.currentTerm);
        return;
      }
      if resp.currentTerm < currentTerm {
        return;
      }
      var prog := if m.from in progress then progress[m.from] else Progress(0, 0);
      if resp.success {
        prog := prog.(matchIndex := raftLog.LastIndex());
        prog := prog.(nextIndex := prog.matchIndex + 1);
        progress := progress[m.from := prog];
        MaybeCommit();
      } else {
        if prog.nextIndex > 1 {
          prog := prog.(nextIndex := prog.nextIndex - 1);
        }
        progress := progress[m.from := prog];
      }
    }

    method Replicate(m: Message, order: seq<int>) returns (ok: bool)
      requires role.Leader? ==> raftLog.View().PositionBound() && ProgressOK(View()) && forall p | p in order :: p in peers
      modifies this, raftLog
      ensures ok <==> old(role).Leader?
      ensures View() == if ok then M.Replicate(old(View()), m, order) else old(View())
    {
      if !role.Leader? {
        return false;
      }
      ok := true;
      var entries := if m.entries.Some? then m.entries.value.entries else [];
      if |entries| == 0 {
        return;
      }
      var numbered := Number(entries);
      ghost var s := View();
      NumberingKeepsBound(s, entries);
      raftLog.Append(numbered);
      ProgressKept(s, s.log.Append(numbered));
      assert View() == s.(log := s.log.Append(numbered));
      QueueAppends(order);
    }

    /** Each proposed entry takes the current term and the next Id. */
    method Number(entries: seq<Log>) returns (numbered: seq<Log>)
      ensures numbered == NumberEntries(entries, currentTerm, raftLog.LastIndex() + 1)
    {
      var nextId := raftLog.LastIndex() + 1;
      numbered := [];
      for k := 0 to |entries|
        invariant nextId == raftLog.LastIndex() + 1 + k
        invariant numbered == NumberEntries(entries[..k], currentTerm, raftLog.LastIndex() + 1)
      {
        numbered := numbered + [Log(currentTerm, nextId, entries[k].data)];
        nextId := nextId + 1;
      }
      assert entries[..|entries|] == entries;
    }

    method QueueAppends(order: seq<int>)
      requires raftLog.View().PositionBound() && ProgressOK(View()) && forall p | p in order :: p in peers
      modifies this`msgsAfterAppend
      ensures var s := old(View());
              View() == s.(msgsAfterAppend := s.msgsAfterAppend
                                            + seq(|order|, k requires 0 <= k < |order| => AppendTo(s, order[k])))
    {
      ghost var r := View();
      for k := 0 to |order|
        invariant View() == r.(msgsAfterAppend := r.msgsAfterAppend + seq(k, j requires 0 <= j < k => AppendTo(r, order[j])))
      {
        var p := order[k];
        assert p in order;
        assert p in peers;
        var prog := progress[p];
        var prevLogIdx := prog.nextIndex - 1;
        var prevLogTerm := 0;
        if prevLogIdx > 0 {
          prevLogTerm := raftLog.Term(prevLogIdx);
        }
        var entriesToSend := EntriesFrom(prog.nextIndex);
        msgsAfterAppend := msgsAfterAppend
                         + [Message(MsgApp, p, id, None, None,
                                    Some(AppendEntries(currentTerm, id, prevLogIdx, prevLogTerm, entriesToSend,
                                                       raftLog.commitIndex)), None)];
      }
    }

    method EntriesFrom(nextIndex: int) returns (toSend: seq<Log>)
      requires raftLog.View().PositionBound() && 1 <= nextIndex <= raftLog.LastIndex() + 1
      ensures toSend == raftLog.entries[nextIndex..raftLog.LastIndex() + 1]
    {
      toSend := [];
      var i := nextIndex;
      while i <= raftLog.LastIndex()
        invariant nextIndex <= i <= raftLog.LastIndex() + 1
        invariant toSend == raftLog.entries[nextIndex..i]
      {
        if i < |raftLog.entries| {
          toSend := toSend + [raftLog.entries[i]];
        }
        i := i + 1;
      }
    }

    method BroadcastHeartbeat(order: seq<int>)
      requires raftLog.View().PositionBound() && ProgressOK(View()) && forall p | p in order :: p in peers
      modifies this
      ensures View() == M.BroadcastHeartbeat(old(View()), order)
    {
      var commitIndex := raftLog.commitIndex;
      ghost var s := View();
      for k := 0 to |order|
        invariant View() == s.(msgs := s.msgs + seq(k, j requires 0 <= j < k => HeartbeatTo(s, order[j])))
      {
        var p := order[k];
        assert p in order;
        assert p in s.peers;
        var prevLogIdx := progress[p].matchIndex;
        var prevLogTerm := raftLog.Term(prevLogIdx);
        msgs := msgs + [Message(MsgApp, p, id, None, None,
                                Some(AppendEntries(currentTerm, id, prevLogIdx, prevLogTerm, [], commitIndex)), None)];
      }
    }

    method StepFollower(m: Message, order: seq<int>)
      requires Valid(View())
      modifies this, raftLog
      ensures View() == M.StepFollower(old(View()), m, order)
    {
      match m.kind {
        case MsgVote =>
          if m.vote.None? {
            Campaign(order);
          } else {
            HandleVoteRequest(m);
          }
        case MsgApp =>
          electionTick := 0;
          HandleAppendEntries(m);
        case MsgHeartbeat =>
          electionTick := 0;
          HandleAppendEntries(m);
        case _ =>
      }
    }

    method StepCandidate(m: Message, order: seq<int>)
      requires Valid(View()) && role.Candidate?
      modifies this, raftLog
      ensures View() == M.StepCandidate(old(View()), m, order)
    {
      match m.kind {
        case MsgVote =>
          if m.vote.None? {
            Campaign(order);
          } else {
            HandleVoteRequest(m);
          }
        case MsgVoteResp =>
          HandleVoteResponse(m);
        case MsgApp =>
          electionTick := 0;
          HandleAppendEntries(m);
        case MsgHeartbeat =>
          electionTick := 0;
          HandleAppendEntries(m);
        case _ =>
      }
    }

    method StepLeader(m: Message, order: seq<int>)
      requires Valid(View()) && role.Leader? && forall p | p in order :: p in peers
      modifies this, raftLog
      ensures View() == M.StepLeader(old(View()), m, order)
    {
      match m.kind {
        case MsgHeartbeat =>
          BroadcastHeartbeat(order);
        case MsgApp =>
          var _ := Replicate(m, order);
        case MsgAppResp =>
          HandleAppendResponse(m);
        case _ =>
      }
    }

    /** The step function pointer of the source always matches the role. */
    method Step(m: Message, order: seq<int>)
      requires Valid(View()) && IsOrder(order, peers)
      modifies this, raftLog
      ensures View() == M.Step(old(View()), m, order)
    {
      match role {
        case Follower => StepFollower(m, order);
        case Candidate => StepCandidate(m, order);
        case Leader => StepLeader(m, order);
      }
    }

    method Tick(order: seq<int>)
      requires Valid(View()) && IsOrder(order, peers)
      modifies this, raftLog
      ensures View() == M.Tick(old(View()), order)
    {
      match role {
        case Leader =>
          heartbeatTick := heartbeatTick + 1;
          if heartbeatTick >= heartbeatTimeout {
            heartbeatTick := 0;
            Step(Internal(MsgHeartbeat), order);
          }
        case _ =>
          electionTick := electionTick + 1;
          if electionTick >= randomizedTimeout {
            electionTick := 0;
            Step(Internal(MsgVote), order);
          }
      }
    }

    /** Nothing to report leaves the channel empty. */
    method TakeReady() returns (rd: Option<Ready>)
      requires Valid(View())
      modifies this
      ensures rd == if HasReady(old(View())) then Some(ReadyOf(old(View()))) else None
      ensures View() == if rd.Some? then Drained(old(View())) else old(View())
    {
      var hasUnstable := raftLog.stableIndex < raftLog.LastIndex();
      var hasCommitted := raftLog.commitIndex > raftLog.lastApplied;
      rd := None;
      if |msgs| > 0 || |msgsAfterAppend| > 0 || hasUnstable || hasCommitted {
        var volatile := raftLog.VolatileEntries();
        var committed := raftLog.CommittedEntries();
        rd := Some(Ready(msgs, volatile, msgsAfterAppend, committed,
                         currentTerm, raftLog.commitIndex, raftLog.lastApplied));
        msgs, msgsAfterAppend := [], [];
      }
    }

    method Advance()
      modifies raftLog
      ensures View() == M.Advance(old(View()))
    {
      if raftLog.LastIndex() > raftLog.stableIndex {
        raftLog.MarkStableTill(raftLog.LastIndex());
      }
      if raftLog.commitIndex > raftLog.lastApplied {
        raftLog.MarkAppliedTill(raftLog.commitIndex);
      }
    }
  }
}
