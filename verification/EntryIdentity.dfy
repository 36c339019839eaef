/** Entry identity: a (term, Id) pair with a term of at least 1 is assigned at most once in the whole
    cluster, so it names one command everywhere; and no log holds a command nobody proposed. */
module EntryIdentity {
  import opened Types
  import opened RaftLogs
  import opened RaftMachine
  import opened RaftFacts
  import opened Cluster
  import opened ElectionSafety

  /** The issuer was elected for the entry's term and, while still in that term, leads it with a log
      that has reached the Id. */
  ghost predicate IssuedByLeader(c: State, x: Issue) {
    && x.leader in c.hosts
    && x.entry.term >= 1
    && Elected(c, x.leader, x.entry.term)
    && var s := c.hosts[x.leader].raft;
       && s.currentTerm >= x.entry.term
       && (s.currentTerm == x.entry.term ==> s.role.Leader? && x.entry.id <= s.log.LastIndex())
  }

  predicate SameKey(a: Log, b: Log) {
    a.term == b.term && a.id == b.id
  }

  ghost predicate AssignedOnce(issued: seq<Issue>) {
    forall i, j | 0 <= i < j < |issued| :: !SameKey(issued[i].entry, issued[j].entry)
  }

  ghost predicate IsIssued(issued: seq<Issue>, e: Log) {
    exists k :: 0 <= k < |issued| && issued[k].entry == e
  }

  /** The entry came from a client and, unless it is a bare proposal of term 0, from a leader. */
  ghost predicate Traced(c: State, e: Log) {
    e.data in c.proposed && e.term >= 0 && (e.term >= 1 ==> IsIssued(c.issued, e))
  }

  ghost predicate LogTraced(c: State, entries: seq<Log>) {
    forall p {:trigger entries[p]} | 1 <= p < |entries| :: Traced(c, entries[p])
  }

  ghost predicate Accounted(c: State) {
    && AssignedOnce(c.issued)
    && (forall k | 0 <= k < |c.issued| :: IssuedByLeader(c, c.issued[k]))
    && (forall i | i in c.hosts :: LogTraced(c, c.hosts[i].raft.log.entries))
  }

  lemma InitAccounted(ids: set<int>)
    ensures Accounted(Init(ids))
  {}

  lemma TracedForever(c: State, c': State, e: Log)
    requires Traced(c, e) && c.issued <= c'.issued && c.proposed <= c'.proposed
    ensures Traced(c', e)
  {
    if e.term >= 1 {
      var k :| 0 <= k < |c.issued| && c.issued[k].entry == e;
      assert c'.issued[k].entry == e;
    }
  }

  /** The commands a step can bring into a log were all proposed. */
  lemma InputTraced(ids: set<int>, c: State, a: Action, k: nat)
    requires Sound(ids, c) && Accounted(c) && Enabled(c, a) && !a.Round? && k < |Proposed(Input(a))|
    ensures Proposed(Input(a))[k].data in Next(c, a).proposed
    ensures a.Deliver? ==> Traced(c, Proposed(Input(a))[k])
    ensures !a.Deliver? ==> Proposed(Input(a))[k].term == 0
  {
    hide StepFacts, Step, Tick, HostOK, Valid, IssuedByLeader, AssignedOnce;
    if a.Deliver? {
      SentIsVouched(ids, c, a.m);
      var ae, entries := a.m.entries.value, c.hosts[a.m.from].raft.log.entries;
      assert ae.entries[k] == entries[ae.prevLogIdx + 1 + k];
    }
  }

  /** What one step adds to a node's log: nothing, the input's entries, or a leader's numbering of them. */
  lemma LogGains(s: RaftState, m: Message, s': RaftState) returns (gained: seq<Log>)
    requires Valid(s) && LogExplained(s, m, s')
    ensures s'.log.entries == s.log.entries + gained && gained == Since(s.log.entries, s'.log.entries)
    ensures gained == []
            || (!s.role.Leader? && gained == Proposed(m))
            || (s.role.Leader? && gained == NumberEntries(Proposed(m), s.currentTerm, s.log.LastIndex() + 1)
                && s'.role.Leader? && s'.currentTerm == s.currentTerm
                && s'.log.LastIndex() == s.log.LastIndex() + |gained|)
  {
    var numbered := NumberEntries(Proposed(m), s.currentTerm, s.log.LastIndex() + 1);
    hide Consistent;
    if s'.log.entries == s.log.entries {
      gained := [];
    } else if s.role.Leader? {
      gained := numbered;
      NumberingKeepsBound(s, Proposed(m));
    } else {
      gained := Proposed(m);
    }
    AppendedIsSince(s.log.entries, gained);
  }

  lemma AppendedIsSince(before: seq<Log>, es: seq<Log>)
    ensures Since(before, before + es) == es
  {}

  /** What the acting node's log and the issue list gain in one step. */
  lemma StepGains(ids: set<int>, c: State, a: Action) returns (gained: seq<Log>)
    requires Sound(ids, c) && Enabled(c, a) && !a.Round?
    ensures var s, s' := c.hosts[Actor(a)].raft, Moved(c.hosts[Actor(a)].raft, a);
            && s'.log.entries == s.log.entries + gained
            && Next(c, a).issued == (if s.role.Leader? then c.issued + Issues(Actor(a), gained) else c.issued)
            && (s.role.Leader? ==>
                  gained == []
                  || (gained == NumberEntries(Proposed(Input(a)), s.currentTerm, s.log.LastIndex() + 1)
                      && s'.role.Leader? && s'.currentTerm == s.currentTerm
                      && s'.log.LastIndex() == s.log.LastIndex() + |gained|))
            && (!s.role.Leader? ==> gained == [] || gained == Proposed(Input(a)))
  {
    hide Step, Tick, HostOK, LogExplained, VotesExplained, LeadershipExplained, Emits, CommitExplained;
    MovedFacts(ids, c, a);
    gained := LogGains(c.hosts[Actor(a)].raft, Input(a), Moved(c.hosts[Actor(a)].raft, a));
  }

  lemma NextTraced(ids: set<int>, c: State, a: Action)
    requires Sound(ids, c) && Accounted(c) && Enabled(c, a)
    ensures forall i | i in ids :: LogTraced(Next(c, a), Next(c, a).hosts[i].raft.log.entries)
  {
    hide HostOK, Valid, Accounted, LogTraced, Moved;
    forall i | i in ids ensures LogTraced(Next(c, a), Next(c, a).hosts[i].raft.log.entries) {
      NextLogTraced(ids, c, a, i);
    }
  }

  lemma NextLogTraced(ids: set<int>, c: State, a: Action, i: int)
    requires Sound(ids, c) && Accounted(c) && Enabled(c, a) && i in ids
    ensures LogTraced(Next(c, a), Next(c, a).hosts[i].raft.log.entries)
  {
    hide StepFacts, Step, Tick, HostOK, Valid, IssuedByLeader, AssignedOnce, Rounded, Traced;
    var n, c' := Actor(a), Next(c, a);
    var entries, entries' := c.hosts[i].raft.log.entries, c'.hosts[i].raft.log.entries;
    var gained: seq<Log> := [];
    if i == n && !a.Round? {
      gained := StepGains(ids, c, a);
    } else if i == n {
      RoundKeepsEntries(ids, n, c.hosts[n]);
    }
    forall p {:trigger entries'[p]} | 1 <= p < |entries'| ensures Traced(c', entries'[p]) {
      if p < |entries| {
        TracedForever(c, c', entries[p]);
      } else {
        GainTraced(ids, c, a, gained, p - |entries|);
      }
    }
  }

  lemma GainTraced(ids: set<int>, c: State, a: Action, gained: seq<Log>, k: nat)
    requires Sound(ids, c) && Accounted(c) && Enabled(c, a) && !a.Round? && k < |gained|
    requires var s := c.hosts[Actor(a)].raft;
             if s.role.Leader?
             then gained == NumberEntries(Proposed(Input(a)), s.currentTerm, s.log.LastIndex() + 1)
                  && Next(c, a).issued == c.issued + Issues(Actor(a), gained)
             else gained == Proposed(Input(a)) && Next(c, a).issued == c.issued
    ensures Traced(Next(c, a), gained[k])
  {
    hide StepFacts, Step, Tick, HostOK, IssuedByLeader, AssignedOnce;
    var c' := Next(c, a);
    InputTraced(ids, c, a, k);
    if c.hosts[Actor(a)].raft.role.Leader? {
      assert c'.issued[|c.issued| + k].entry == gained[k];
    } else if a.Deliver? {
      TracedForever(c, c', gained[k]);
    }
  }

  lemma IssuerKeepsLeading(ids: set<int>, c: State, a: Action, x: Issue)
    requires Sound(ids, c) && Enabled(c, a) && IssuedByLeader(c, x)
    ensures IssuedByLeader(Next(c, a), x)
  {
    hide Step, Tick, HostOK, Elected, StepFacts, Valid, Rounded, Stepped;
    var n, c' := Actor(a), Next(c, a);
    NextSound(ids, c, a);
    VotersGrow(c, c', x.leader, x.entry.term);
    if x.leader == n {
      LeaderKeepsLeading(ids, c, a);
    }
  }

  lemma LeaderKeepsLeading(ids: set<int>, c: State, a: Action)
    requires Sound(ids, c) && Enabled(c, a)
    ensures LeaderStays(c.hosts[Actor(a)].raft, Next(c, a).hosts[Actor(a)].raft)
  {
    hide Step, Tick, HostOK, Grows, VotesExplained, LeadershipExplained, LogExplained, Emits, CommitExplained, Valid;
    var n := Actor(a);
    if a.Round? {
      RoundKeepsRoles(ids, n, c.hosts[n]);
      RoundKeepsEntries(ids, n, c.hosts[n]);
    } else {
      MovedFacts(ids, c, a);
    }
  }

  lemma NewIssuesByLeader(ids: set<int>, c: State, a: Action, gained: seq<Log>, k: nat)
    requires Sound(ids, c) && Fair(c) && Enabled(c, a) && !a.Round? && k < |gained|
    requires var s, s' := c.hosts[Actor(a)].raft, Next(c, a).hosts[Actor(a)].raft;
             && s.role.Leader? && s'.role.Leader? && s'.currentTerm == s.currentTerm
             && gained == NumberEntries(Proposed(Input(a)), s.currentTerm, s.log.LastIndex() + 1)
             && s'.log.LastIndex() == s.log.LastIndex() + |gained|
    ensures IssuedByLeader(Next(c, a), Issue(Actor(a), gained[k]))
  {
    hide Step, Tick, HostOK, Elected, StepFacts;
    NextSound(ids, c, a);
    VotersGrow(c, Next(c, a), Actor(a), c.hosts[Actor(a)].raft.currentTerm);
  }

  /** Nothing issued so far has the key a leader is about to assign. */
  lemma NewKeysAreFresh(c: State, n: int, k: nat, e: Log)
    requires Fair(c) && Accounted(c) && n in c.hosts && c.hosts[n].raft.role.Leader? && k < |c.issued|
    requires e.term == c.hosts[n].raft.currentTerm && e.id > c.hosts[n].raft.log.LastIndex()
    ensures !SameKey(c.issued[k].entry, e)
  {
    var x := c.issued[k];
    assert IssuedByLeader(c, x);
    if x.entry.term == e.term {
      ElectedIsUnique(c, x.leader, n, e.term);
    }
  }

  lemma NextAccounted(ids: set<int>, c: State, a: Action)
    requires Sound(ids, c) && Fair(c) && Accounted(c) && Enabled(c, a)
    ensures Accounted(Next(c, a))
  {
    hide Step, Tick, HostOK, IssuedByLeader, Fair, StepFacts, Traced;
    var n, c' := Actor(a), Next(c, a);
    NextSound(ids, c, a);
    NextTraced(ids, c, a);
    forall k | 0 <= k < |c.issued| ensures IssuedByLeader(c', c.issued[k]) {
      IssuerKeepsLeading(ids, c, a, c.issued[k]);
    }
    if !a.Round? && c.hosts[n].raft.role.Leader? {
      NextIssued(ids, c, a);
    }
  }

  /** What a leader issues in one step is its own and clashes with nothing issued before. */
  lemma NextIssued(ids: set<int>, c: State, a: Action)
    requires Sound(ids, c) && Fair(c) && Accounted(c) && Enabled(c, a) && !a.Round? && c.hosts[Actor(a)].raft.role.Leader?
    ensures c.issued <= Next(c, a).issued && AssignedOnce(Next(c, a).issued)
    ensures forall k | |c.issued| <= k < |Next(c, a).issued| :: IssuedByLeader(Next(c, a), Next(c, a).issued[k])
  {
    hide HostOK, IssuedByLeader, Fair, Moved, LogTraced, AssignedOnce, Step, Tick;
    var n := Actor(a);
    var gained := StepGains(ids, c, a);
    var issued := Next(c, a).issued;
    hide Next;
    forall k | |c.issued| <= k < |issued| ensures IssuedByLeader(Next(c, a), issued[k]) {
      NewIssuesByLeader(ids, c, a, gained, k - |c.issued|);
    }
    if gained != [] {
      NumberingAssignsOnce(c, n, Proposed(Input(a)));
    } else {
      assert issued == c.issued;
    }
  }

  lemma NumberingAssignsOnce(c: State, n: int, es: seq<Log>)
    requires Fair(c) && Accounted(c) && n in c.hosts && c.hosts[n].raft.role.Leader?
    ensures var s := c.hosts[n].raft;
            AssignedOnce(c.issued + Issues(n, NumberEntries(es, s.currentTerm, s.log.LastIndex() + 1)))
  {
    hide Fair, LogTraced, IssuedByLeader;
    var s := c.hosts[n].raft;
    var gained := NumberEntries(es, s.currentTerm, s.log.LastIndex() + 1);
    var issued := c.issued + Issues(n, gained);
    forall i, j | 0 <= i < j < |issued| ensures !SameKey(issued[i].entry, issued[j].entry) {
      if i < |c.issued| <= j {
        NewKeysAreFresh(c, n, i, gained[j - |c.issued|]);
      }
    }
  }

  lemma {:induction false} RunIsAccounted(ids: set<int>, cs: seq<State>, acts: seq<Action>, i: nat)
    requires IsRun(ids, cs, acts) && i < |cs|
    ensures Accounted(cs[i])
  {
    hide Next, Enabled, HostOK, Fair, Accounted;
    if i == 0 {
      InitAccounted(ids);
    } else {
      RunIsAccounted(ids, cs, acts, i - 1);
      RunIsSound(ids, cs, acts, i - 1);
      RunIsFair(ids, cs, acts, i - 1);
      NextAccounted(ids, cs[i - 1], acts[i - 1]);
    }
  }

  /** An entry in some log, or in an append that is queued or was ever sent. */
  ghost predicate Occurs(c: State, e: Log) {
    exists n :: n in c.hosts && (InLog(c.hosts[n], e) || exists m :: InAppend(c.hosts[n], m, e))
  }

  ghost predicate InLog(h: Host, e: Log) {
    exists p :: 1 <= p < |h.raft.log.entries| && h.raft.log.entries[p] == e
  }

  ghost predicate InAppend(h: Host, m: Message, e: Log) {
    (m in h.queued || m in h.queuedAfter) && m.entries.Some? && e in m.entries.value.entries
  }

  lemma OccurrenceTraced(ids: set<int>, c: State, e: Log)
    requires Sound(ids, c) && Accounted(c) && Occurs(c, e)
    ensures Traced(c, e)
  {
    hide Traced, IssuedByLeader, HostOK;
    var n :| n in c.hosts && (InLog(c.hosts[n], e) || exists m :: InAppend(c.hosts[n], m, e));
    if exists m :: InAppend(c.hosts[n], m, e) {
      var m :| InAppend(c.hosts[n], m, e);
      assert HostOK(ids, n, c.hosts[n]);
      AppendedIsLogged(ids, n, c.hosts[n], m, e);
    }
  }

  lemma AppendedIsLogged(ids: set<int>, n: int, h: Host, m: Message, e: Log)
    requires HostOK(ids, n, h) && InAppend(h, m, e)
    ensures InLog(h, e)
  {
    var ae := m.entries.value;
    var k :| 0 <= k < |ae.entries| && ae.entries[k] == e;
    assert Vouched(h.raft, m);
    assert h.raft.log.entries[ae.prevLogIdx + 1 + k] == e;
  }

  lemma {:induction false} HistoryGrows(ids: set<int>, cs: seq<State>, acts: seq<Action>, i: nat, j: nat)
    requires IsRun(ids, cs, acts) && i <= j < |cs|
    ensures cs[i].issued <= cs[j].issued && cs[i].proposed <= cs[j].proposed
    decreases j
  {
    if i < j {
      HistoryGrows(ids, cs, acts, i, j - 1);
      NextHistory(cs[j - 1], acts[j - 1]);
    }
  }

  lemma NextHistory(c: State, a: Action)
    requires AllValid(c) && Enabled(c, a)
    ensures c.issued <= Next(c, a).issued && c.proposed <= Next(c, a).proposed
  {}

  /** Every assignment in a run has its own (term, Id). */
  lemma NoKeyAssignedTwice(ids: set<int>, cs: seq<State>, acts: seq<Action>, i: nat)
    requires IsRun(ids, cs, acts) && i < |cs|
    ensures AssignedOnce(cs[i].issued)
  {
    RunIsAccounted(ids, cs, acts, i);
  }

  /** Two entries with the same term of at least 1 and the same Id, wherever and whenever they occur,
      are one entry: they carry the same command. */
  lemma EntryIdentity(ids: set<int>, cs: seq<State>, acts: seq<Action>, i: nat, j: nat, e: Log, f: Log)
    requires IsRun(ids, cs, acts) && i < |cs| && j < |cs|
    requires Occurs(cs[i], e) && Occurs(cs[j], f)
    requires e.term == f.term >= 1 && e.id == f.id
    ensures e == f
  {
    hide Next, Enabled, HostOK, Fair, Occurs, IssuedByLeader;
    var last := |cs| - 1;
    RunIsSound(ids, cs, acts, i);
    RunIsSound(ids, cs, acts, j);
    RunIsAccounted(ids, cs, acts, i);
    RunIsAccounted(ids, cs, acts, j);
    RunIsAccounted(ids, cs, acts, last);
    OccurrenceTraced(ids, cs[i], e);
    OccurrenceTraced(ids, cs[j], f);
    HistoryGrows(ids, cs, acts, i, last);
    HistoryGrows(ids, cs, acts, j, last);
    TracedForever(cs[i], cs[last], e);
    TracedForever(cs[j], cs[last], f);
    var x :| 0 <= x < |cs[last].issued| && cs[last].issued[x].entry == e;
    var y :| 0 <= y < |cs[last].issued| && cs[last].issued[y].entry == f;
    assert SameKey(cs[last].issued[x].entry, cs[last].issued[y].entry);
  }

  /** Nothing enters a log or an append that a client did not propose. */
  lemma OnlyProposedCommands(ids: set<int>, cs: seq<State>, acts: seq<Action>, i: nat, e: Log)
    requires IsRun(ids, cs, acts) && i < |cs| && Occurs(cs[i], e)
    ensures e.data in cs[i].proposed
  {
    hide Next, Enabled, HostOK, Fair, Occurs, IssuedByLeader;
    RunIsSound(ids, cs, acts, i);
    RunIsAccounted(ids, cs, acts, i);
    OccurrenceTraced(ids, cs[i], e);
  }
}
