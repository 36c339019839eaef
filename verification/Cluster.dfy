/** A cluster of any size: every node with its driver (repl/raft.go), and a network that keeps every
    message ever sent, so a message may be lost, delayed, reordered or delivered again and again. */
module Cluster {
  import opened Types
  import opened RaftLogs
  import opened RaftMachine
  import opened RaftFacts

  datatype ToApply = ToApply(entries: seq<Log>, commitIndex: int)

  /** The entries of a sequence of batches. */
  function Handed(batches: seq<ToApply>): seq<Log> {
    if batches == [] then [] else Handed(batches[..|batches| - 1]) + batches[|batches| - 1].entries
  }

  /** A node under its driver. `wal` is what the driver has persisted, `batches` and `delivered` what it has
      handed to the applier, batch by batch and entry by entry; `queued*` records everything ever put in the two outgoing buffers, `sent*`
      everything the driver has taken out of them and sent. */
  datatype Host = Host(
    raft: RaftState, wal: seq<Log>, batches: seq<ToApply>, delivered: seq<Log>,
    queued: seq<Message>, queuedAfter: seq<Message>, sent: seq<Message>, sentAfter: seq<Message>)

  /** One assignment of a term and an Id to a proposed command by a leader. */
  datatype Issue = Issue(leader: int, entry: Log)

  /** `issued`, `proposed` and `counted` are history: every assignment in order, every command a
      client proposed, and the largest index any leader committed by counting. */
  datatype State = State(hosts: map<int, Host>, issued: seq<Issue>, proposed: set<Option<Cmd>>, counted: int)

  datatype Action =
    | Deliver(m: Message, order: seq<int>)
    | Propose(node: int, cmds: seq<Option<Cmd>>, order: seq<int>)
    | Timer(node: int, order: seq<int>)
    | Round(node: int)

  function NewHost(i: int, ids: set<int>): Host {
    Host(NewRaft(i, ids - {i}), [], [], [], [], [], [], [])
  }

  function Init(ids: set<int>): State {
    State(map i | i in ids :: NewHost(i, ids), [], {}, 0)
  }

  function Actor(a: Action): int {
    match a
    case Deliver(m, _) => m.to
    case Propose(n, _, _) => n
    case Timer(n, _) => n
    case Round(n) => n
  }

  /** The message the acting node steps with; a timer steps with one of its own. */
  function Input(a: Action): Message {
    match a
    case Deliver(m, _) => m
    case Propose(_, cmds, _) => Proposal(cmds)
    case _ => Internal(MsgVote)
  }

  ghost predicate Sent(c: State, m: Message) {
    m.from in c.hosts && (m in c.hosts[m.from].sent || m in c.hosts[m.from].sentAfter)
  }

  ghost predicate Enabled(c: State, a: Action) {
    && Actor(a) in c.hosts
    && (a.Deliver? ==> Sent(c, a.m))
    && (!a.Round? ==> IsOrder(a.order, c.hosts[Actor(a)].raft.peers))
  }

  ghost predicate AllValid(c: State) {
    forall i | i in c.hosts :: Valid(c.hosts[i].raft)
  }

  function Moved(s: RaftState, a: Action): RaftState
    requires Valid(s) && !a.Round? && forall p | p in a.order :: p in s.peers
  {
    if a.Timer? then Tick(s, a.order) else Step(s, Input(a), a.order)
  }

  function Since<T>(before: seq<T>, after: seq<T>): seq<T> {
    if |before| <= |after| then after[|before|..] else []
  }

  function Stepped(h: Host, s': RaftState): Host {
    h.(raft := s',
       queued := h.queued + Since(h.raft.msgs, s'.msgs),
       queuedAfter := h.queuedAfter + Since(h.raft.msgsAfterAppend, s'.msgsAfterAppend))
  }

  /** One whole turn of the driver: take a Ready, persist, send both batches, hand over, Advance. */
  function Rounded(h: Host): Host
    requires h.raft.log.Valid()
  {
    if !HasReady(h.raft) then h else
    var rd := ReadyOf(h.raft);
    h.(raft := Advance(Drained(h.raft)),
       wal := h.wal + rd.entries,
       sent := h.sent + rd.messages,
       sentAfter := h.sentAfter + rd.messagesAfterAppend,
       batches := if |rd.committedEntries| > 0 then h.batches + [ToApply(rd.committedEntries, rd.lastCommitIndex)] else h.batches,
       delivered := h.delivered + rd.committedEntries)
  }

  function Issues(leader: int, es: seq<Log>): seq<Issue> {
    seq(|es|, k requires 0 <= k < |es| => Issue(leader, es[k]))
  }

  /** Only a leader assigns; only a leader commits by counting. */
  function Next(c: State, a: Action): State
    requires AllValid(c) && Enabled(c, a)
  {
    var n := Actor(a);
    var h := c.hosts[n];
    if a.Round? then c.(hosts := c.hosts[n := Rounded(h)]) else
    var s' := Moved(h.raft, a);
    State(c.hosts[n := Stepped(h, s')],
          if h.raft.role.Leader? then c.issued + Issues(n, Since(h.raft.log.entries, s'.log.entries)) else c.issued,
          if a.Propose? then c.proposed + (set k | 0 <= k < |a.cmds| :: a.cmds[k]) else c.proposed,
          if h.raft.role.Leader? && s'.log.commitIndex > c.counted then s'.log.commitIndex else c.counted)
  }

  /** A finite run from the initial state of a cluster with these node Ids. That every state is valid
      restricts nothing: RunIsSound proves it. */
  ghost predicate IsRun(ids: set<int>, cs: seq<State>, acts: seq<Action>) {
    && |cs| == |acts| + 1
    && cs[0] == Init(ids)
    && forall i {:trigger acts[i]} | 0 <= i < |acts| ::
         AllValid(cs[i]) && Enabled(cs[i], acts[i]) && cs[i + 1] == Next(cs[i], acts[i])
  }

  // ---------- What each host keeps ----------

  /** The batches carry what was delivered, and their commit indexes do not decrease. */
  ghost predicate BatchesOK(h: Host) {
    BatchesFit(h.batches, h.delivered, h.raft.log.commitIndex)
  }

  ghost predicate BatchesFit(bs: seq<ToApply>, delivered: seq<Log>, commitIndex: int) {
    && delivered == Handed(bs)
    && (forall i {:trigger bs[i]} | 0 <= i < |bs| :: 0 <= bs[i].commitIndex <= commitIndex)
    && (forall i, j {:trigger bs[i], bs[j]} | 0 <= i <= j < |bs| :: bs[i].commitIndex <= bs[j].commitIndex)
  }

  ghost predicate HostOK(ids: set<int>, i: int, h: Host) {
    && Valid(h.raft)
    && h.raft.id == i && h.raft.peers == ids - {i} && h.raft.clusterSize == |ids|
    && h.queued == h.sent + h.raft.msgs
    && h.queuedAfter == h.sentAfter + h.raft.msgsAfterAppend
    && h.wal == h.raft.log.entries[1..h.raft.log.stableIndex + 1]
    && h.delivered == h.raft.log.entries[1..h.raft.log.lastApplied + 1]
    && BatchesOK(h)
    && (forall m | m in h.queued || m in h.queuedAfter :: Vouched(h.raft, m))
  }

  ghost predicate Sound(ids: set<int>, c: State) {
    && c.hosts.Keys == ids
    && AllValid(c)
    && forall i | i in ids :: HostOK(ids, i, c.hosts[i])
  }

  lemma NewHostOK(ids: set<int>, i: int)
    requires i in ids
    ensures HostOK(ids, i, NewHost(i, ids)) && Valid(NewHost(i, ids).raft)
  {
    assert |ids - {i}| + 1 == |ids|;
  }

  lemma InitSound(ids: set<int>)
    ensures Sound(ids, Init(ids))
  {
    hide HostOK, NewHost;
    forall i | i in ids ensures HostOK(ids, i, Init(ids).hosts[i]) && Valid(Init(ids).hosts[i].raft) {
      NewHostOK(ids, i);
    }
  }

  lemma SteppedOK(ids: set<int>, i: int, h: Host, m: Message, s': RaftState)
    requires HostOK(ids, i, h) && StepFacts(h.raft, m, s')
    ensures HostOK(ids, i, Stepped(h, s'))
  {
    hide VotesExplained, LeadershipExplained, LeaderStays, CommitExplained, Vouched;
    var s := h.raft;
    var h' := Stepped(h, s');
    assert s'.msgs == s.msgs + Since(s.msgs, s'.msgs);
    assert s'.msgsAfterAppend == s.msgsAfterAppend + Since(s.msgsAfterAppend, s'.msgsAfterAppend);
    forall x | x in h'.queued || x in h'.queuedAfter ensures Vouched(s', x) {
      if x in h.queued || x in h.queuedAfter {
        VouchedForever(s, s', x);
      } else {
        NewIsVouched(s, s', x);
      }
    }
  }

  lemma NewIsVouched(s: RaftState, s': RaftState, x: Message)
    requires Emits(s, s') && (x in Since(s.msgs, s'.msgs) || x in Since(s.msgsAfterAppend, s'.msgsAfterAppend))
    ensures Vouched(s', x)
  {
    hide Vouched;
    if x in Since(s.msgs, s'.msgs) {
      var k :| 0 <= k < |Since(s.msgs, s'.msgs)| && Since(s.msgs, s'.msgs)[k] == x;
      assert x == s'.msgs[|s.msgs| + k];
    } else {
      var k :| 0 <= k < |Since(s.msgsAfterAppend, s'.msgsAfterAppend)| && Since(s.msgsAfterAppend, s'.msgsAfterAppend)[k] == x;
      assert x == s'.msgsAfterAppend[|s.msgsAfterAppend| + k];
    }
  }

  /** A round moves stableIndex and lastApplied exactly past what it handed over. */
  lemma AdvanceHandsOver(s: RaftState)
    requires Valid(s)
    ensures var l, l' := s.log, Advance(Drained(s)).log;
            && l'.Valid() && l'.entries == l.entries && l'.commitIndex == l.commitIndex
            && l.entries[1..l'.stableIndex + 1] == l.entries[1..l.stableIndex + 1] + l.VolatileEntries()
            && l.entries[1..l'.lastApplied + 1] == l.entries[1..l.lastApplied + 1] + l.CommittedEntries()
  {}

  lemma BatchAppended(bs: seq<ToApply>, delivered: seq<Log>, commitIndex: int, es: seq<Log>)
    requires BatchesFit(bs, delivered, commitIndex) && 0 <= commitIndex
    ensures BatchesFit(bs + [ToApply(es, commitIndex)], delivered + es, commitIndex)
  {
    assert (bs + [ToApply(es, commitIndex)])[..|bs|] == bs;
  }

  lemma RoundBatches(h: Host)
    requires Valid(h.raft) && BatchesOK(h)
    ensures BatchesOK(Rounded(h))
  {
    hide BatchesFit, Handed;
    if HasReady(h.raft) {
      var rd := ReadyOf(h.raft);
      if |rd.committedEntries| > 0 {
        BatchAppended(h.batches, h.delivered, h.raft.log.commitIndex, rd.committedEntries);
      } else {
        assert h.delivered + rd.committedEntries == h.delivered;
      }
    }
  }

  lemma RoundGrows(s: RaftState)
    requires Valid(s)
    ensures var s' := Advance(Drained(s)); Valid(s') && Grows(s, s') && s'.msgs == [] && s'.msgsAfterAppend == []
  {}

  lemma RoundedOK(ids: set<int>, i: int, h: Host)
    requires HostOK(ids, i, h)
    ensures HostOK(ids, i, Rounded(h))
    ensures Grows(h.raft, Rounded(h).raft)
  {
    hide BatchesOK, Vouched, ProgressOK;
    if HasReady(h.raft) {
      var h' := Rounded(h);
      AdvanceHandsOver(h.raft);
      RoundBatches(h);
      RoundGrows(h.raft);
      hide Advance, Drained;
      forall x | x in h'.queued || x in h'.queuedAfter ensures Vouched(h'.raft, x) {
        VouchedForever(h.raft, h'.raft, x);
      }
    }
  }

  lemma RoundKeepsEntries(ids: set<int>, i: int, h: Host)
    requires HostOK(ids, i, h)
    ensures Rounded(h).raft.log.entries == h.raft.log.entries
  {}

  lemma SentIsVouched(ids: set<int>, c: State, m: Message)
    requires Sound(ids, c) && Sent(c, m)
    ensures Vouched(c.hosts[m.from].raft, m) && Admissible(m)
  {
    assert m in c.hosts[m.from].queued || m in c.hosts[m.from].queuedAfter;
    VouchedIsAdmissible(c.hosts[m.from].raft, m);
  }

  lemma MovedFacts(ids: set<int>, c: State, a: Action)
    requires Sound(ids, c) && Enabled(c, a) && !a.Round?
    ensures var s := c.hosts[Actor(a)].raft; StepFacts(s, Input(a), Moved(s, a))
  {
    var s := c.hosts[Actor(a)].raft;
    match a {
      case Deliver(m, order) =>
        SentIsVouched(ids, c, m);
        StepSatisfiesFacts(s, m, order);
      case Propose(_, cmds, order) =>
        StepSatisfiesFacts(s, Proposal(cmds), order);
      case Timer(_, order) =>
        TickSatisfiesFacts(s, order);
    }
  }

  lemma ActorOK(ids: set<int>, c: State, a: Action)
    requires Sound(ids, c) && Enabled(c, a)
    ensures var h' := Next(c, a).hosts[Actor(a)];
            HostOK(ids, Actor(a), h') && Valid(h'.raft) && Grows(c.hosts[Actor(a)].raft, h'.raft)
  {
    hide Step, Tick, Rounded, VotesExplained, LeadershipExplained, LogExplained, Emits, CommitExplained, BatchesOK, Vouched;
    var n := Actor(a);
    if a.Round? {
      RoundedOK(ids, n, c.hosts[n]);
    } else {
      MovedFacts(ids, c, a);
      SteppedOK(ids, n, c.hosts[n], Input(a), Moved(c.hosts[n].raft, a));
    }
  }

  lemma NextSound(ids: set<int>, c: State, a: Action)
    requires Sound(ids, c) && Enabled(c, a)
    ensures Sound(ids, Next(c, a))
    ensures forall i | i in ids :: Grows(c.hosts[i].raft, Next(c, a).hosts[i].raft)
  {
    hide HostOK, Valid, Moved, Rounded, Stepped;
    ActorOK(ids, c, a);
    forall i | i in ids ensures Grows(c.hosts[i].raft, c.hosts[i].raft) {}
  }

  // ---------- Whole runs ----------

  /** Every reachable state is sound; in particular no step is ever taken from an invalid node. */
  lemma {:induction false} RunIsSound(ids: set<int>, cs: seq<State>, acts: seq<Action>, i: nat)
    requires IsRun(ids, cs, acts) && i < |cs|
    ensures Sound(ids, cs[i])
  {
    if i == 0 {
      InitSound(ids);
    } else {
      RunIsSound(ids, cs, acts, i - 1);
      NextSound(ids, cs[i - 1], acts[i - 1]);
    }
  }

  lemma {:induction false} RunGrows(ids: set<int>, cs: seq<State>, acts: seq<Action>, i: nat, j: nat, n: int)
    requires IsRun(ids, cs, acts) && i <= j < |cs| && n in ids
    ensures n in cs[i].hosts && n in cs[j].hosts && Grows(cs[i].hosts[n].raft, cs[j].hosts[n].raft)
    decreases j
  {
    hide HostOK, Valid, Next, Enabled, Init;
    RunIsSound(ids, cs, acts, i);
    if i < j {
      RunGrows(ids, cs, acts, i, j - 1, n);
      RunIsSound(ids, cs, acts, j - 1);
      NextSound(ids, cs[j - 1], acts[j - 1]);
      GrowsTransitive(cs[i].hosts[n].raft, cs[j - 1].hosts[n].raft, cs[j].hosts[n].raft);
    }
  }
}
