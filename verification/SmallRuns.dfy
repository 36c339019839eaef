/** Three small runs. In one a two-node cluster elects a leader, replicates one command, commits it and delivers
    it on both nodes. In the second the network delivers the append twice: the follower holds one
    (term, Id) at two positions. In the third a node takes a bare proposal in term 0, which is not
    contiguous, and Log Matching holds all the same. */
module SmallRuns {
  import opened Types
  import opened RaftLogs
  import opened RaftMachine
  import opened RaftFacts
  import opened Cluster
  import opened LogMatching
  import opened Alignment
  import opened AppliedPrefixes

  const IDS: set<int> := {9, 10}
  const ENTRY := Log(1, 1, Some(Cmd(PUT, [107], [118], 1)))

  // ---------- Messages ----------

  const ASK := Message(MsgVote, 10, 9, Some(RequestVote(1, 9, 0, 0)), None, None, None)
  const GRANT := Message(MsgVoteResp, 9, 10, None, Some(RequestVoteResponse(1, true)), None, None)
  const APPEND := Message(MsgApp, 10, 9, None, None, Some(AppendEntries(1, 9, 0, 0, [ENTRY], 0)), None)
  const ACK := Message(MsgAppResp, 9, 10, None, None, None, Some(AppendEntriesResponse(1, true)))

  // ---------- The states of node 9 ----------

  const NEW9 := NewRaft(9, {10})
  const CANDIDATE := NEW9.(role := Candidate, currentTerm := 1, electionTick := 0, votedFor := map[1 := 9],
                           votes := Some(map[9 := true]), msgs := [ASK])
  const LEADER := CANDIDATE.(role := Leader, msgs := [], votes := None, progress := map[10 := Progress(0, 1)])
  const WRITER := LEADER.(log := EMPTY_LOG.(entries := [UNUSED, ENTRY]), msgsAfterAppend := [APPEND])

  // ---------- The states of node 10 ----------

  const NEW10 := NewRaft(10, {9})
  const VOTER := NEW10.(currentTerm := 1, electionTick := 0, votedFor := map[1 := 9], msgs := [GRANT])
  const ONCE := VOTER.(msgs := [], log := EMPTY_LOG.(entries := [UNUSED, ENTRY]), msgsAfterAppend := [ACK])
  const TWICE := ONCE.(log := EMPTY_LOG.(entries := [UNUSED, ENTRY, ENTRY]), msgsAfterAppend := [ACK, ACK])

  lemma Orders()
    ensures IsOrder([10], {10}) && IsOrder([9], {9})
  {}

  lemma Node9Campaigns()
    ensures Valid(NEW9) && Tick(NEW9, [10]) == CANDIDATE
  {
    assert NEW9.clusterSize == 2;
    TickCases(NEW9, [10]);
    assert [] + seq(1, k requires 0 <= k < 1 => VoteRequestTo(CANDIDATE.(msgs := []), [10][k])) == [ASK];
  }

  lemma Node10Votes()
    ensures Valid(NEW10) && Step(NEW10, ASK, [9]) == VOTER
  {}

  lemma Node9Leads()
    ensures Valid(CANDIDATE.(msgs := [])) && Step(CANDIDATE.(msgs := []), GRANT, [10]) == LEADER
  {
    var votes := map[9 := true][10 := true];
    assert GrantedBy(votes) == {9, 10};
    assert |GrantedBy(votes)| == 2;
    hide GrantedBy;
    var peers := CANDIDATE.peers;
    assert map[] + (map p | p in peers :: Progress(0, EMPTY_LOG.LastIndex() + 1)) == map[10 := Progress(0, 1)];
  }

  lemma Node9Writes()
    ensures Valid(LEADER) && Step(LEADER, Proposal([ENTRY.data]), [10]) == WRITER
  {
    var numbered := NumberEntries(Proposed(Proposal([ENTRY.data])), 1, 1);
    assert numbered == [ENTRY];
    assert EMPTY_LOG.Append(numbered).entries == [UNUSED, ENTRY];
    var r := LEADER.(log := EMPTY_LOG.(entries := [UNUSED, ENTRY]));
    assert [UNUSED, ENTRY][1..2] == [ENTRY];
    assert ProgressOK(r) && AppendTo(r, 10) == APPEND;
    assert [] + seq(1, k requires 0 <= k < 1 => AppendTo(r, [10][k])) == [APPEND];
  }

  lemma Node10Appends()
    ensures Valid(VOTER.(msgs := [])) && Step(VOTER.(msgs := []), APPEND, [9]) == ONCE
    ensures Valid(ONCE) && Step(ONCE, APPEND, [9]) == TWICE
  {
    assert EMPTY_LOG.Append([ENTRY]).entries == [UNUSED, ENTRY];
    assert ONCE.log.Append([ENTRY]).entries == [UNUSED, ENTRY, ENTRY];
  }

  // ---------- The run ----------

  ghost predicate At(c: State, x: RaftState, y: RaftState) {
    c.hosts.Keys == IDS && c.hosts[9].raft == x && c.hosts[10].raft == y
  }

  lemma StepMoves(c: State, a: Action)
    requires AllValid(c) && Enabled(c, a) && !a.Round?
    ensures var c' := Next(c, a);
            && c'.hosts.Keys == c.hosts.Keys && c'.hosts[Actor(a)].raft == Moved(c.hosts[Actor(a)].raft, a)
            && (forall n | n in c.hosts && n != Actor(a) :: c'.hosts[n] == c.hosts[n])
            && (forall m | Sent(c, m) :: Sent(c', m))
  {
    hide Moved;
  }

  lemma RoundMoves(c: State, a: Action)
    requires AllValid(c) && Enabled(c, a) && a.Round?
    ensures var s, c' := c.hosts[Actor(a)].raft, Next(c, a);
            && c'.hosts.Keys == c.hosts.Keys && (HasReady(s) ==> c'.hosts[Actor(a)].raft == Advance(Drained(s)))
            && (forall n | n in c.hosts && n != Actor(a) :: c'.hosts[n] == c.hosts[n])
            && (forall m | Sent(c, m) :: Sent(c', m))
            && (forall m | (m in s.msgs || m in s.msgsAfterAppend) && m.from == Actor(a) :: Sent(c', m))
  {
    hide Advance, Drained;
  }

  lemma Act(cs: seq<State>, acts: seq<Action>, a: Action) returns (cs': seq<State>, acts': seq<Action>, c: State)
    requires IsRun(IDS, cs, acts) && Enabled(cs[|acts|], a)
    ensures AllValid(cs[|acts|]) && c == Next(cs[|acts|], a)
    ensures cs' == cs + [c] && acts' == acts + [a] && IsRun(IDS, cs', acts')
    ensures c == cs'[|acts'|] && AllValid(c)
  {
    hide Next, Enabled, HostOK;
    RunIsSound(IDS, cs, acts, |acts|);
    c := Next(cs[|acts|], a);
    cs', acts' := cs + [c], acts + [a];
    forall i {:trigger acts'[i]} {:trigger cs'[i]} | 0 <= i < |acts'|
      ensures AllValid(cs'[i]) && Enabled(cs'[i], acts'[i]) && cs'[i + 1] == Next(cs'[i], acts'[i])
    {
      if i < |acts| {
        assert acts'[i] == acts[i];
      }
    }
    RunIsSound(IDS, cs', acts', |acts'|);
  }

  lemma Begins()
    ensures IsRun(IDS, [Init(IDS)], []) && At(Init(IDS), NEW9, NEW10)
  {
    hide NewRaft, AllValid;
    assert IDS - {9} == {10};
    assert IDS - {10} == {9};
    assert Init(IDS).hosts[9] == NewHost(9, IDS) && Init(IDS).hosts[10] == NewHost(10, IDS);
  }

  lemma Idle(s: RaftState)
    requires s.log == EMPTY_LOG
    ensures Advance(Drained(s)) == s.(msgs := [], msgsAfterAppend := [])
  {}

  /** Node 9 campaigns and its request goes out. */
  lemma Asks() returns (cs: seq<State>, acts: seq<Action>, c: State)
    ensures IsRun(IDS, cs, acts) && c == cs[|acts|] && At(c, CANDIDATE.(msgs := []), NEW10) && Sent(c, ASK)
  {
    hide IsRun, Next, AllValid, Sent, Init, Drained, Advance;
    Begins();
    cs, acts, c := [Init(IDS)], [], Init(IDS);
    cs, acts, c := NodeTicks(cs, acts, c);
    assert ASK in CANDIDATE.msgs;
    cs, acts, c := NodeRounds(cs, acts, c, 9, CANDIDATE, NEW10);
    Idle(CANDIDATE);
  }

  /** Node 10 grants, and its answer goes out. */
  lemma Grants() returns (cs: seq<State>, acts: seq<Action>, c: State)
    ensures IsRun(IDS, cs, acts) && c == cs[|acts|] && At(c, CANDIDATE.(msgs := []), VOTER.(msgs := [])) && Sent(c, GRANT)
  {
    hide IsRun, Next, AllValid, Sent, Drained, Advance, Step, Valid;
    Orders();
    cs, acts, c := Asks();
    cs, acts, c := NodeReceives(cs, acts, c, ASK, [9], CANDIDATE.(msgs := []), NEW10);
    Node10Votes();
    assert GRANT in VOTER.msgs;
    cs, acts, c := NodeRounds(cs, acts, c, 10, CANDIDATE.(msgs := []), VOTER);
    Idle(VOTER);
  }

  lemma Leads() returns (cs: seq<State>, acts: seq<Action>, c: State)
    ensures IsRun(IDS, cs, acts) && c == cs[|acts|] && At(c, LEADER, VOTER.(msgs := []))
  {
    hide IsRun, Next, AllValid, Sent, Step, Valid;
    Orders();
    cs, acts, c := Grants();
    cs, acts, c := NodeReceives(cs, acts, c, GRANT, [10], CANDIDATE.(msgs := []), VOTER.(msgs := []));
    Node9Leads();
  }

  /** The leader takes one command and its append goes out. */
  lemma Writes() returns (cs: seq<State>, acts: seq<Action>, c: State, x: RaftState)
    ensures IsRun(IDS, cs, acts) && c == cs[|acts|] && At(c, x, VOTER.(msgs := [])) && Sent(c, APPEND)
    ensures x == Advance(Drained(WRITER)) && x.log.entries == [UNUSED, ENTRY]
  {
    hide IsRun, Next, AllValid, Sent, Drained, Step, Valid;
    cs, acts, c := Leads();
    cs, acts, c := NodeProposes(cs, acts, c);
    assert APPEND in WRITER.msgsAfterAppend;
    cs, acts, c := NodeRounds(cs, acts, c, 9, WRITER, VOTER.(msgs := []));
    x := Advance(Drained(WRITER));
    KeepsEntries(WRITER);
  }

  lemma KeepsEntries(s: RaftState)
    ensures Advance(Drained(s)).log.entries == s.log.entries
  {}

  lemma NodeProposes(cs0: seq<State>, acts0: seq<Action>, c0: State) returns (cs: seq<State>, acts: seq<Action>, c: State)
    requires IsRun(IDS, cs0, acts0) && c0 == cs0[|acts0|] && At(c0, LEADER, VOTER.(msgs := []))
    ensures IsRun(IDS, cs, acts) && c == cs[|acts|] && At(c, WRITER, VOTER.(msgs := []))
  {
    hide IsRun, Next, Step, IsOrder;
    Orders();
    Node9Writes();
    cs, acts, c := Act(cs0, acts0, Propose(9, [ENTRY.data], [10]));
    StepMoves(c0, Propose(9, [ENTRY.data], [10]));
  }

  /** The append is delivered twice, and the follower takes it twice: entry 1 of term 1 is at positions 1
      and 2 of its log, and at position 1 of the leader's. */
  lemma LogMatchingFails() returns (cs: seq<State>, acts: seq<Action>)
    ensures IsRun(IDS, cs, acts) && !IsContiguousRun(IDS, cs, acts)
    ensures var c := cs[|acts|];
            && c.hosts.Keys == {9, 10}
            && c.hosts[9].raft.log.entries == [UNUSED, ENTRY]
            && c.hosts[10].raft.log.entries == [UNUSED, ENTRY, ENTRY]
  {
    hide IsRun, Next, AllValid, Sent, Step, Valid, IsContiguousRun;
    var c, x;
    Orders();
    Node10Appends();
    cs, acts, c, x := Writes();
    cs, acts, c := NodeReceives(cs, acts, c, APPEND, [9], x, VOTER.(msgs := []));
    cs, acts, c := NodeReceives(cs, acts, c, APPEND, [9], x, ONCE);
    OnePosition(cs, acts);
  }

  lemma OnePosition(cs: seq<State>, acts: seq<Action>)
    requires IsRun(IDS, cs, acts) && 10 in cs[|acts|].hosts && cs[|acts|].hosts[10].raft.log.entries == [UNUSED, ENTRY, ENTRY]
    ensures !IsContiguousRun(IDS, cs, acts)
  {
    hide Next, Enabled, Contiguous;
    if IsContiguousRun(IDS, cs, acts) {
      LogMatching.LogMatching(IDS, cs, acts, |acts|, 10, 10, 1, 2);
    }
  }

  lemma NodeTicks(cs0: seq<State>, acts0: seq<Action>, c0: State) returns (cs: seq<State>, acts: seq<Action>, c: State)
    requires IsRun(IDS, cs0, acts0) && c0 == cs0[|acts0|] && At(c0, NEW9, NEW10)
    ensures IsRun(IDS, cs, acts) && c == cs[|acts|] && At(c, CANDIDATE, NEW10)
  {
    hide IsRun, Next, Tick, Step, IsOrder;
    Orders();
    Node9Campaigns();
    cs, acts, c := Act(cs0, acts0, Timer(9, [10]));
    StepMoves(c0, Timer(9, [10]));
  }

  lemma NodeRounds(cs0: seq<State>, acts0: seq<Action>, c0: State, n: int, x: RaftState, y: RaftState)
    returns (cs: seq<State>, acts: seq<Action>, c: State)
    requires IsRun(IDS, cs0, acts0) && c0 == cs0[|acts0|] && At(c0, x, y) && n in IDS
    requires HasReady(if n == 9 then x else y)
    ensures IsRun(IDS, cs, acts) && c == cs[|acts|]
    ensures if n == 9 then At(c, Advance(Drained(x)), y) else At(c, x, Advance(Drained(y)))
    ensures forall m | Sent(c0, m) :: Sent(c, m)
    ensures var s := if n == 9 then x else y;
            forall m | (m in s.msgs || m in s.msgsAfterAppend) && m.from == n :: Sent(c, m)
  {
    hide IsRun, Next, Advance, Drained, HasReady;
    cs, acts, c := Act(cs0, acts0, Round(n));
    RoundMoves(c0, Round(n));
  }

  lemma NodeReceives(cs0: seq<State>, acts0: seq<Action>, c0: State, m: Message, order: seq<int>, x: RaftState, y: RaftState)
    returns (cs: seq<State>, acts: seq<Action>, c: State)
    requires IsRun(IDS, cs0, acts0) && c0 == cs0[|acts0|] && At(c0, x, y) && m.to in IDS && Sent(c0, m)
    requires IsOrder(order, if m.to == 9 then x.peers else y.peers)
    ensures IsRun(IDS, cs, acts) && c == cs[|acts|] && Valid(x) && Valid(y)
    ensures if m.to == 9 then At(c, Step(x, m, order), y) else At(c, x, Step(y, m, order))
    ensures forall m | Sent(c0, m) :: Sent(c, m)
  {
    hide IsRun, Next, Step;
    cs, acts, c := Act(cs0, acts0, Deliver(m, order));
    StepMoves(c0, Deliver(m, order));
  }

  // ---------- One command from proposal to delivery ----------

  const BEAT := Message(MsgApp, 10, 9, None, None, Some(AppendEntries(1, 9, 1, 1, [], 1)), None)

  const WROTE := WRITER.(msgsAfterAppend := [], log := WRITER.log.(stableIndex := 1))
  const COUNTED := WROTE.(progress := map[10 := Progress(1, 2)], log := WROTE.log.(commitIndex := 1))
  const APPLIED := COUNTED.(log := COUNTED.log.(lastApplied := 1))
  const BEATS := APPLIED.(msgs := [BEAT])

  const STORED := ONCE.(msgsAfterAppend := [], log := ONCE.log.(stableIndex := 1))
  const HEARD := STORED.(log := STORED.log.(commitIndex := 1))
  const FOLLOWED := HEARD.(log := HEARD.log.(lastApplied := 1))

  lemma Rounds()
    ensures HasReady(WRITER) && Advance(Drained(WRITER)) == WROTE
    ensures HasReady(ONCE) && Advance(Drained(ONCE)) == STORED
    ensures HasReady(COUNTED) && Advance(Drained(COUNTED)) == APPLIED
    ensures HasReady(BEATS) && Advance(Drained(BEATS)) == APPLIED
    ensures HasReady(HEARD) && Advance(Drained(HEARD)) == FOLLOWED
  {
    hide NewRaft;
  }

  /** The acknowledged entry has a majority, and the leader commits it. */
  lemma Node9Commits()
    requires Valid(WROTE)
    ensures Step(WROTE, ACK, [10]) == COUNTED
  {
    var r := WROTE.(progress := WROTE.progress[10 := Progress(1, 2)]);
    assert r.progress == map[10 := Progress(1, 2)];
    assert (set p | p in r.progress && r.progress[p].matchIndex >= 1) == {10};
    assert NEW9.clusterSize == 2;
    assert Committable(r, 1);
    assert CommitTarget(r, 1) == 1;
  }

  lemma Node9Beats()
    requires Valid(APPLIED)
    ensures Tick(APPLIED, [10]) == BEATS
  {
    assert NEW9.peers == {10};
    TickCases(APPLIED, [10]);
    assert HeartbeatTo(APPLIED, 10) == BEAT;
    assert [] + seq(1, k requires 0 <= k < 1 => HeartbeatTo(APPLIED, [10][k])) == [BEAT];
  }

  lemma Node10Hears()
    requires Valid(STORED)
    ensures Step(STORED, BEAT, [9]) == HEARD
  {
    assert STORED.log.Append([]).entries == STORED.log.entries;
  }

  lemma TimerAt(c: State, y: RaftState)
    requires At(c, APPLIED, y)
    ensures Enabled(c, Timer(9, [10]))
  {
    Orders();
  }

  lemma NodeBeats(cs0: seq<State>, acts0: seq<Action>, c0: State, y: RaftState) returns (cs: seq<State>, acts: seq<Action>, c: State)
    requires IsRun(IDS, cs0, acts0) && c0 == cs0[|acts0|] && At(c0, APPLIED, y)
    ensures IsRun(IDS, cs, acts) && c == cs[|acts|] && At(c, BEATS, y)
  {
    hide IsRun, Next, Tick, Step, IsOrder, NewRaft, Valid;
    Orders();
    TimerAt(c0, y);
    cs, acts, c := Act(cs0, acts0, Timer(9, [10]));
    Node9Beats();
    StepMoves(c0, Timer(9, [10]));
  }

  lemma Replicates() returns (cs: seq<State>, acts: seq<Action>, c: State)
    ensures IsRun(IDS, cs, acts) && c == cs[|acts|] && At(c, WROTE, STORED) && Sent(c, ACK)
  {
    hide IsRun, Next, AllValid, Sent, Step, Valid, Drained, Advance, HasReady;
    var x;
    Orders();
    Rounds();
    Node10Appends();
    cs, acts, c, x := Writes();
    cs, acts, c := NodeReceives(cs, acts, c, APPEND, [9], x, VOTER.(msgs := []));
    assert ACK in ONCE.msgsAfterAppend;
    cs, acts, c := NodeRounds(cs, acts, c, 10, x, ONCE);
  }

  lemma Commits() returns (cs: seq<State>, acts: seq<Action>, c: State)
    ensures IsRun(IDS, cs, acts) && c == cs[|acts|] && At(c, APPLIED, STORED)
  {
    hide IsRun, Next, AllValid, Sent, Step, Valid, Drained, Advance, HasReady;
    Orders();
    Rounds();
    cs, acts, c := Replicates();
    cs, acts, c := NodeReceives(cs, acts, c, ACK, [10], WROTE, STORED);
    Node9Commits();
    cs, acts, c := NodeRounds(cs, acts, c, 9, COUNTED, STORED);
  }

  lemma Follows() returns (cs: seq<State>, acts: seq<Action>, c: State)
    ensures IsRun(IDS, cs, acts) && c == cs[|acts|] && At(c, APPLIED, FOLLOWED)
  {
    hide IsRun, Next, AllValid, Sent, Step, Valid, Drained, Advance, HasReady;
    Orders();
    Rounds();
    cs, acts, c := Commits();
    cs, acts, c := NodeBeats(cs, acts, c, STORED);
    assert BEAT in BEATS.msgs;
    cs, acts, c := NodeRounds(cs, acts, c, 9, BEATS, STORED);
    cs, acts, c := NodeReceives(cs, acts, c, BEAT, [9], APPLIED, STORED);
    Node10Hears();
    cs, acts, c := NodeRounds(cs, acts, c, 10, APPLIED, HEARD);
  }

  /** A run in which a command is proposed, replicated, counted, committed and delivered on both nodes. It is
      contiguous. */
  lemma CommandIsDelivered() returns (cs: seq<State>, acts: seq<Action>)
    ensures IsContiguousRun(IDS, cs, acts)
    ensures var c := cs[|acts|];
            c.hosts.Keys == {9, 10} && forall n | n in {9, 10} ::
              c.hosts[n].raft.log.commitIndex == 1 && c.hosts[n].wal == [ENTRY] && c.hosts[n].delivered == [ENTRY]
  {
    hide Next, AllValid, Enabled, Dense;
    var c;
    cs, acts, c := Follows();
    ExactlyOnceHandOff(IDS, cs, acts, |acts|, 9);
    ExactlyOnceHandOff(IDS, cs, acts, |acts|, 10);
    forall i {:trigger cs[i]} | 0 <= i < |cs| ensures AllDense(cs[i]) {
      forall n | n in cs[i].hosts ensures Dense(cs[i].hosts[n].raft.log.entries) {
        RunIsSound(IDS, cs, acts, i);
        RunGrows(IDS, cs, acts, i, |acts|, n);
        StartIsDense(cs[i].hosts[n].raft);
      }
    }
    PositionsHoldIffContiguous(IDS, cs, acts);
  }

  lemma StartIsDense(s: RaftState)
    requires Valid(s) && s.log.entries <= [UNUSED, ENTRY]
    ensures Dense(s.log.entries)
  {}

  // ---------- One bare proposal ----------

  const BARE := Propose(9, [ENTRY.data], [10])

  /** A client's proposal reaches node 9 before any election: the node takes it as it is. */
  lemma BareProposalIsHarmless() returns (cs: seq<State>)
    ensures IsRun(IDS, cs, [BARE]) && !IsContiguousRun(IDS, cs, [BARE])
    ensures forall i {:trigger cs[i]} | 0 <= i < 2 :: LogsAgree(cs[i])
  {
    hide At, Next, Aligned, Contiguous, AllValid, LogsAgree, BareFirst, Init, Enabled;
    cs := TakesBare();
    var acts := [BARE];
    assert acts[0] == BARE;
    assert AllValid(cs[0]) && Enabled(cs[0], acts[0]);
    BareIsAligned(cs[0]);
    forall i {:trigger cs[i]} | 0 <= i < 2 ensures LogsAgree(cs[i]) {
      AlignedRunAgrees(IDS, cs, acts, i);
    }
  }

  lemma TakesBare() returns (cs: seq<State>)
    ensures IsRun(IDS, cs, [BARE]) && |cs| == 2 && At(cs[0], NEW9, NEW10)
  {
    hide IsRun, Next, Init, AllValid, NewRaft;
    Orders();
    Begins();
    EnabledAt(Init(IDS));
    var acts, c;
    cs, acts, c := Act([Init(IDS)], [], BARE);
    assert acts == [BARE];
  }

  lemma EnabledAt(c: State)
    requires At(c, NEW9, NEW10)
    ensures Enabled(c, BARE)
  {
    Orders();
  }

  /** It is the first entry of its log and the only one of its kind, but it was not sent by a peer. */
  lemma BareIsAligned(c: State)
    requires At(c, NEW9, NEW10) && AllValid(c) && Enabled(c, BARE)
    ensures Aligned(c, BARE) && !Contiguous(c, BARE)
  {
    hide Enabled, AllValid, IsOrder;
    EmptyLogs(c);
    TakenInTermZero(c.hosts[9].raft);
  }

  lemma EmptyLogs(c: State)
    requires At(c, NEW9, NEW10)
    ensures OnlyBare(c, Log(0, 0, ENTRY.data)) && c.hosts[9].raft.log == EMPTY_LOG
  {}

  lemma TakenInTermZero(s: RaftState)
    requires Valid(s) && s.role.Follower? && s.currentTerm == 0
    ensures Accepts(s, Input(BARE))
  {}
}
