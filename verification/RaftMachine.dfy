/** The Raft state machine of repl/sm.go as functions on values: messages, the node's state, and
    what one Step, one Tick and one Ready/Advance round do to it. */
module RaftMachine {
  import opened Types
  import opened RaftLogs

  // ---------- Messages (repl/raft.proto) ----------

  datatype MessageType =
    | MsgUnknown | MsgApp | MsgAppResp | MsgVote | MsgVoteResp | MsgSnap | MsgHeartbeat | MsgHeartbeatResp

  datatype RequestVote = RequestVote(term: int, candidateId: int, lastLogIndex: int, lastLogTerm: int)

  datatype RequestVoteResponse = RequestVoteResponse(term: int, voteGranted: bool)

  datatype AppendEntries = AppendEntries(
    term: int, leaderId: int, prevLogIdx: int, prevLogTerm: int, entries: seq<Log>, leaderCommitIdx: int)

  datatype AppendEntriesResponse = AppendEntriesResponse(currentTerm: int, success: bool)

  /** The payloads are protobuf pointers, so each may be nil. */
  datatype Message = Message(
    kind: MessageType, to: int, from: int,
    vote: Option<RequestVote>, voteResp: Option<RequestVoteResponse>,
    entries: Option<AppendEntries>, entriesResp: Option<AppendEntriesResponse>)

  /** A message with no payload, as the timers step themselves with. */
  function Internal(kind: MessageType): Message {
    Message(kind, 0, 0, None, None, None, None)
  }

  /** What a client's Put hands to its own node: bare entries, no term, no Id, no sender. */
  function Proposal(cmds: seq<Option<Cmd>>): Message {
    Message(MsgApp, 0, 0, None, None,
            Some(AppendEntries(0, 0, 0, 0, seq(|cmds|, k requires 0 <= k < |cmds| => Log(0, 0, cmds[k])), 0)), None)
  }

  // ---------- Node state ----------

  datatype Role = Follower | Candidate | Leader

  datatype Progress = Progress(matchIndex: int, nextIndex: int)

  /** `votes` is a Go map that is nil outside the candidate role. */
  datatype RaftState = RaftState(
    id: int, currentTerm: int, votedFor: map<int, int>, role: Role,
    randomizedTimeout: int, electionTick: int, heartbeatTick: int,
    electionTimeout: int, heartbeatTimeout: int, clusterSize: int, peers: set<int>,
    votes: Option<map<int, bool>>, msgs: seq<Message>, msgsAfterAppend: seq<Message>,
    log: LogState, progress: map<int, Progress>)

  const ELECTION_TIMEOUT := 10
  const HEARTBEAT_TIMEOUT := 1

  /** Go's remainder truncates toward zero; Dafny's is never negative. */
  function GoRemainder(a: int, b: int): int
    requires b > 0
  {
    if a >= 0 then a % b else -((-a) % b)
  }

  function NewRaft(id: int, peers: set<int>): RaftState {
    RaftState(id, 0, map[], Follower, ELECTION_TIMEOUT, GoRemainder(id, ELECTION_TIMEOUT), 0,
              ELECTION_TIMEOUT, HEARTBEAT_TIMEOUT, |peers| + 1, peers,
              None, [], [], EMPTY_LOG, map[])
  }

  function Quorum(clusterSize: int): int {
    clusterSize / 2 + 1
  }

  // ---------- Well-formedness ----------

  ghost predicate ProgressOK(s: RaftState) {
    forall p {:trigger p in s.peers} {:trigger s.progress[p]} | p in s.peers ::
      && p in s.progress
      && 0 <= s.progress[p].matchIndex <= s.log.LastIndex()
      && 1 <= s.progress[p].nextIndex <= s.log.LastIndex() + 1
  }

  /** What every reachable node satisfies: enough for no map write to hit a nil map and no slice
      lookup to leave its slice. */
  ghost predicate Valid(s: RaftState) {
    && s.log.Valid()
    && s.clusterSize >= 1
    && s.electionTimeout > 0
    && s.randomizedTimeout == s.electionTimeout
    && 0 <= s.currentTerm
    && (s.votes.Some? <==> s.role.Candidate?)
    && (!s.role.Follower? ==> s.currentTerm >= 1)
    && (forall t | t in s.votedFor :: t <= s.currentTerm)
    && (s.role.Leader? ==> ProgressOK(s))
  }

  /** Appends that a leader cut out of a log that meets the position bound, and bare proposals. */
  ghost predicate Admissible(m: Message) {
    m.entries.Some? ==>
      var ae := m.entries.value;
      forall k {:trigger ae.entries[k]} | 0 <= k < |ae.entries| ::
        0 <= ae.entries[k].id <= (if ae.prevLogIdx > 0 then ae.prevLogIdx else 0) + 1 + k
  }

  /** The order in which Go happened to range over the peer map. */
  ghost predicate IsOrder(order: seq<int>, peers: set<int>) {
    && (forall p :: p in order <==> p in peers)
    && (forall i, j | 0 <= i < j < |order| :: order[i] != order[j])
  }

  // ---------- Role changes ----------

  function BecomeFollower(s: RaftState, term: int): RaftState
    requires s.electionTimeout > 0
  {
    s.(role := Follower, currentTerm := term, electionTick := 0, randomizedTimeout := s.electionTimeout, votes := None)
  }

  function BecomeCandidate(s: RaftState): RaftState
    requires s.electionTimeout > 0
  {
    s.(role := Candidate, electionTick := 0, randomizedTimeout := s.electionTimeout, votes := Some(map[]))
  }

  function BecomeLeader(s: RaftState): RaftState {
    s.(role := Leader, heartbeatTick := 0, votes := None,
       progress := s.progress + map p | p in s.peers :: Progress(0, s.log.LastIndex() + 1))
  }

  // ---------- Elections ----------

  function VoteRequestTo(s: RaftState, p: int): Message {
    Message(MsgVote, p, s.id, Some(RequestVote(s.currentTerm, s.id, s.log.LastIndex(), s.log.LastTerm())),
            None, None, None)
  }

  function Campaign(s: RaftState, order: seq<int>): RaftState
    requires s.electionTimeout > 0
  {
    var t := s.currentTerm + 1;
    var c := BecomeCandidate(s).(currentTerm := t, votedFor := s.votedFor[t := s.id], votes := Some(map[s.id := true]));
    if c.clusterSize == 1 then BecomeLeader(c)
    else c.(msgs := c.msgs + seq(|order|, k requires 0 <= k < |order| => VoteRequestTo(c, order[k])))
  }

  function SendVoteResponse(s: RaftState, to: int, granted: bool): RaftState {
    s.(msgs := s.msgs + [Message(MsgVoteResp, to, s.id, None, Some(RequestVoteResponse(s.currentTerm, granted)),
                                 None, None)])
  }

  /** A message of a later term makes a follower of its receiver. */
  function AdoptTerm(s: RaftState, term: int): RaftState
    requires s.electionTimeout > 0
  {
    if term > s.currentTerm then BecomeFollower(s, term) else s
  }

  function HandleVoteRequest(s: RaftState, m: Message): RaftState
    requires s.electionTimeout > 0
  {
    if m.vote.None? then s else
    var req := m.vote.value;
    if req.term < s.currentTerm then SendVoteResponse(s, req.candidateId, false) else
    var f := AdoptTerm(s, req.term);
    if req.term in f.votedFor && f.votedFor[req.term] != req.candidateId
    then SendVoteResponse(f, req.candidateId, false)
    else SendVoteResponse(f.(votedFor := f.votedFor[req.term := req.candidateId]), req.candidateId, true)
  }

  function GrantedBy(votes: map<int, bool>): set<int> {
    set p | p in votes && votes[p]
  }

  function HandleVoteResponse(s: RaftState, m: Message): RaftState
    requires s.electionTimeout > 0 && s.votes.Some?
  {
    if m.voteResp.None? then s else
    var resp := m.voteResp.value;
    if resp.term < s.currentTerm then s
    else if resp.term > s.currentTerm then BecomeFollower(s, resp.term)
    else
      var votes := s.votes.value[m.from := resp.voteGranted];
      var counted := s.(votes := Some(votes));
      if |GrantedBy(votes)| >= Quorum(s.clusterSize) then BecomeLeader(counted) else counted
  }

  // ---------- Replication ----------

  function AppendResponse(s: RaftState, to: int, success: bool): Message {
    Message(MsgAppResp, to, s.id, None, None, None, Some(AppendEntriesResponse(s.currentTerm, success)))
  }

  /** The consistency check an append must pass once the term has been adopted. */
  predicate Consistent(s: RaftState, ae: AppendEntries)
    requires s.log.PositionBound()
  {
    !(ae.prevLogIdx > 0 && (ae.prevLogIdx > s.log.LastIndex() || s.log.Term(ae.prevLogIdx) != ae.prevLogTerm))
  }

  function HandleAppendEntries(s: RaftState, m: Message): RaftState
    requires s.electionTimeout > 0 && s.log.PositionBound()
  {
    if m.entries.None? then s else
    var ae := m.entries.value;
    if ae.term < s.currentTerm then s.(msgs := s.msgs + [AppendResponse(s, m.from, false)]) else
    var f := AdoptTerm(s, ae.term);
    if !Consistent(f, ae) then f.(msgs := f.msgs + [AppendResponse(f, m.from, false)]) else
    AcceptEntries(f, ae, m.from)
  }

  /** Entries go on the end of the log, whatever is there already; the commit index follows the
      leader's as far as the log reaches. */
  function AppendedLog(l: LogState, ae: AppendEntries): LogState {
    var a := l.Append(ae.entries);
    if ae.leaderCommitIdx > a.commitIndex then a.MaybeCommit(Min(ae.leaderCommitIdx, a.LastIndex())) else a
  }

  function AcceptEntries(s: RaftState, ae: AppendEntries, from: int): RaftState {
    s.(log := AppendedLog(s.log, ae),
       msgsAfterAppend := if |ae.entries| > 0 then s.msgsAfterAppend + [AppendResponse(s, from, true)]
                          else s.msgsAfterAppend)
  }

  function Min(a: int, b: int): int {
    if a < b then a else b
  }

  function NumberEntries(es: seq<Log>, term: int, first: int): seq<Log> {
    seq(|es|, k requires 0 <= k < |es| => Log(term, first + k, es[k].data))
  }

  function AppendTo(s: RaftState, p: int): Message
    requires s.log.PositionBound() && ProgressOK(s) && p in s.peers
  {
    var next := s.progress[p].nextIndex;
    Message(MsgApp, p, s.id, None, None,
            Some(AppendEntries(s.currentTerm, s.id, next - 1, s.log.Term(next - 1),
                               s.log.entries[next..s.log.LastIndex() + 1], s.log.commitIndex)), None)
  }

  /** The entries a leader's Step would propose: any MSG_APP is taken for a proposal. */
  function Proposed(m: Message): seq<Log> {
    if m.entries.Some? then m.entries.value.entries else []
  }

  lemma NumberingKeepsBound(s: RaftState, es: seq<Log>)
    requires s.log.PositionBound()
    ensures var a := s.log.Append(NumberEntries(es, s.currentTerm, s.log.LastIndex() + 1));
            && a.PositionBound()
            && a.LastIndex() == s.log.LastIndex() + |es|
  {
    AppendKeepsBound(s.log, s.log.LastIndex(), NumberEntries(es, s.currentTerm, s.log.LastIndex() + 1));
  }

  lemma ProgressKept(s: RaftState, log: LogState)
    requires ProgressOK(s) && s.log.LastIndex() <= log.LastIndex()
    ensures ProgressOK(s.(log := log))
  {}

  function Replicate(s: RaftState, m: Message, order: seq<int>): RaftState
    requires s.log.PositionBound() && ProgressOK(s) && forall p | p in order :: p in s.peers
  {
    var es := Proposed(m);
    if |es| == 0 then s else
    NumberingKeepsBound(s, es);
    var r := s.(log := s.log.Append(NumberEntries(es, s.currentTerm, s.log.LastIndex() + 1)));
    r.(msgsAfterAppend := r.msgsAfterAppend + seq(|order|, k requires 0 <= k < |order| => AppendTo(r, order[k])))
  }

  /** Index i may be committed by counting: a quorum of progress records covers it, and its entry
      is from the current term. */
  predicate Committable(s: RaftState, i: int)
    requires s.log.PositionBound() && 0 <= i
  {
    && 1 + |set p | p in s.progress && s.progress[p].matchIndex >= i| >= Quorum(s.clusterSize)
    && s.log.Term(i) == s.currentTerm
  }

  /** The greatest committable index in (commitIndex, hi], or commitIndex if there is none. */
  function CommitTarget(s: RaftState, hi: int): (r: int)
    requires s.log.PositionBound() && 0 <= s.log.commitIndex <= hi
    ensures s.log.commitIndex <= r <= hi
    ensures r > s.log.commitIndex ==> Committable(s, r)
    ensures forall i | r < i <= hi :: !Committable(s, i)
    decreases hi
  {
    if hi == s.log.commitIndex then hi
    else if Committable(s, hi) then hi
    else CommitTarget(s, hi - 1)
  }

  function CommitByCounting(s: RaftState): RaftState
    requires s.log.PositionBound() && 0 <= s.log.commitIndex
  {
    if s.log.LastIndex() <= s.log.commitIndex then s
    else s.(log := s.log.(commitIndex := CommitTarget(s, s.log.LastIndex())))
  }

  function ProgressOf(s: RaftState, p: int): Progress {
    if p in s.progress then s.progress[p] else Progress(0, 0)
  }

  function HandleAppendResponse(s: RaftState, m: Message): RaftState
    requires s.electionTimeout > 0 && s.log.PositionBound() && 0 <= s.log.commitIndex
  {
    if m.entriesResp.None? then s else
    var resp := m.entriesResp.value;
    if resp.currentTerm > s.currentTerm then BecomeFollower(s, resp.currentTerm)
    else if resp.currentTerm < s.currentTerm then s
    else if resp.success then
      var last := s.log.LastIndex();
      CommitByCounting(s.(progress := s.progress[m.from := Progress(last, last + 1)]))
    else
      var prog := ProgressOf(s, m.from);
      s.(progress := s.progress[m.from := if prog.nextIndex > 1 then prog.(nextIndex := prog.nextIndex - 1) else prog])
  }

  function HeartbeatTo(s: RaftState, p: int): Message
    requires s.log.PositionBound() && ProgressOK(s) && p in s.peers
  {
    var matched := s.progress[p].matchIndex;
    Message(MsgApp, p, s.id, None, None,
            Some(AppendEntries(s.currentTerm, s.id, matched, s.log.Term(matched), [], s.log.commitIndex)), None)
  }

  function BroadcastHeartbeat(s: RaftState, order: seq<int>): RaftState
    requires s.log.PositionBound() && ProgressOK(s) && forall p | p in order :: p in s.peers
  {
    s.(msgs := s.msgs + seq(|order|, k requires 0 <= k < |order| => HeartbeatTo(s, order[k])))
  }

  // ---------- Step and Tick ----------

  function StepFollower(s: RaftState, m: Message, order: seq<int>): RaftState
    requires Valid(s)
  {
    match m.kind
    case MsgVote => if m.vote.None? then Campaign(s, order) else HandleVoteRequest(s, m)
    case MsgApp => HandleAppendEntries(s.(electionTick := 0), m)
    case MsgHeartbeat => HandleAppendEntries(s.(electionTick := 0), m)
    case _ => s
  }

  function StepCandidate(s: RaftState, m: Message, order: seq<int>): RaftState
    requires Valid(s) && s.role.Candidate?
  {
    match m.kind
    case MsgVote => if m.vote.None? then Campaign(s, order) else HandleVoteRequest(s, m)
    case MsgVoteResp => HandleVoteResponse(s, m)
    case MsgApp => HandleAppendEntries(s.(electionTick := 0), m)
    case MsgHeartbeat => HandleAppendEntries(s.(electionTick := 0), m)
    case _ => s
  }

  function StepLeader(s: RaftState, m: Message, order: seq<int>): RaftState
    requires Valid(s) && s.role.Leader? && forall p | p in order :: p in s.peers
  {
    match m.kind
    case MsgHeartbeat => BroadcastHeartbeat(s, order)
    case MsgApp => Replicate(s, m, order)
    case MsgAppResp => HandleAppendResponse(s, m)
    case _ => s
  }

  function Step(s: RaftState, m: Message, order: seq<int>): RaftState
    requires Valid(s) && forall p | p in order :: p in s.peers
  {
    match s.role
    case Follower => StepFollower(s, m, order)
    case Candidate => StepCandidate(s, m, order)
    case Leader => StepLeader(s, m, order)
  }

  function Tick(s: RaftState, order: seq<int>): RaftState
    requires Valid(s) && forall p | p in order :: p in s.peers
  {
    if s.role.Leader? then
      if s.heartbeatTick + 1 >= s.heartbeatTimeout
      then Step(s.(heartbeatTick := 0), Internal(MsgHeartbeat), order)
      else s.(heartbeatTick := s.heartbeatTick + 1)
    else
      if s.electionTick + 1 >= s.randomizedTimeout
      then Step(s.(electionTick := 0), Internal(MsgVote), order)
      else s.(electionTick := s.electionTick + 1)
  }

  // ---------- Ready and Advance ----------

  datatype Ready = Ready(
    messages: seq<Message>, entries: seq<Log>, messagesAfterAppend: seq<Message>, committedEntries: seq<Log>,
    term: int, lastCommitIndex: int, lastAppliedIndex: int)

  predicate HasReady(s: RaftState) {
    || |s.msgs| > 0
    || |s.msgsAfterAppend| > 0
    || s.log.stableIndex < s.log.LastIndex()
    || s.log.commitIndex > s.log.lastApplied
  }

  function ReadyOf(s: RaftState): Ready
    requires s.log.Valid()
  {
    Ready(s.msgs, s.log.VolatileEntries(), s.msgsAfterAppend, s.log.CommittedEntries(),
          s.currentTerm, s.log.commitIndex, s.log.lastApplied)
  }

  function Drained(s: RaftState): RaftState {
    s.(msgs := [], msgsAfterAppend := [])
  }

  function Advance(s: RaftState): RaftState {
    var stable := if s.log.LastIndex() > s.log.stableIndex then s.log.MarkStableTill(s.log.LastIndex()) else s.log;
    var applied := if stable.commitIndex > stable.lastApplied then stable.MarkAppliedTill(stable.commitIndex) else stable;
    s.(log := applied)
  }
}
