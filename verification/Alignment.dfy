/** The exact condition of Log Matching. A follower or candidate appends what it accepts at the end of its log,
    wherever that is; Log Matching holds through a run exactly when every accepted append lands at the
    positions its entries have in the sender's log, and every bare proposal that is taken in term 0 is the
    first entry of its log and the only one of its kind. */
module Alignment {
  import opened Types
  import opened RaftLogs
  import opened RaftMachine
  import opened RaftFacts
  import opened Cluster
  import opened ElectionSafety
  import opened EntryIdentity
  import opened LogMatching

  // ---------- Log Matching, in any run ----------

  /** Entries with one Id and one term are at one position, and the logs agree up to it. */
  ghost predicate Agree(x: seq<Log>, y: seq<Log>) {
    forall p, q {:trigger x[p], y[q]} | 1 <= p < |x| && 1 <= q < |y| && SameKey(x[p], y[q]) :: p == q && x[..p + 1] == y[..q + 1]
  }

  ghost predicate LogsAgree(c: State) {
    forall i, j | i in c.hosts && j in c.hosts :: Agree(c.hosts[i].raft.log.entries, c.hosts[j].raft.log.entries)
  }

  // ---------- The condition ----------

  /** No log holds a bare proposal other than e. */
  ghost predicate OnlyBare(c: State, e: Log) {
    forall n | n in c.hosts :: OnlyBareIn(c.hosts[n].raft.log.entries, e)
  }

  ghost predicate OnlyBareIn(entries: seq<Log>, e: Log) {
    forall q {:trigger entries[q]} | 1 <= q < |entries| && entries[q].term == 0 :: entries[q] == e
  }

  /** What an accepted append or proposal must satisfy; it can be told before the step. */
  ghost predicate Aligned(c: State, a: Action)
    requires AllValid(c) && Enabled(c, a)
  {
    var s := c.hosts[Actor(a)].raft;
    !a.Round? && Accepts(s, Input(a)) ==>
      if a.Deliver? then |s.log.entries| == a.m.entries.value.prevLogIdx + 1
      else a.Propose? && |a.cmds| == 1 && |s.log.entries| == 1 && OnlyBare(c, Log(0, 0, a.cmds[0]))
  }

  ghost predicate IsAlignedRun(ids: set<int>, cs: seq<State>, acts: seq<Action>) {
    && IsRun(ids, cs, acts)
    && forall i {:trigger acts[i]} | 0 <= i < |acts| :: Aligned(cs[i], acts[i])
  }

  // ---------- What every run keeps ----------

  /** Slot 0 is unused, a bare entry has Id 0, and in term 0 there are only bare ones. */
  ghost predicate ZeroOK(s: RaftState) {
    && |s.log.entries| >= 1 && s.log.entries[0] == UNUSED
    && forall p {:trigger s.log.entries[p]} | 1 <= p < |s.log.entries| ::
         (s.log.entries[p].term == 0 ==> s.log.entries[p].id == 0) && (s.currentTerm == 0 ==> s.log.entries[p].term == 0)
  }

  ghost predicate ZerosOK(c: State) {
    forall n | n in c.hosts :: ZeroOK(c.hosts[n].raft)
  }

  /** An issued entry is in its issuer's log for good. */
  ghost predicate IssuedLogged(c: State) {
    forall k {:trigger c.issued[k]} | 0 <= k < |c.issued| :: c.issued[k].leader in c.hosts && InLog(c.hosts[c.issued[k].leader], c.issued[k].entry)
  }

  ghost predicate RunFacts(ids: set<int>, c: State) {
    Sound(ids, c) && Fair(c) && Accounted(c) && ZerosOK(c) && IssuedLogged(c)
  }

  /** A follower or candidate whose log grows has accepted an append, and taken its term. */
  lemma GrowthIsAccepted(s: RaftState, m: Message, s': RaftState)
    requires Valid(s) && LogExplained(s, m, s') && !s.role.Leader? && s'.log.entries != s.log.entries
    ensures Accepts(s, m) && s'.log.entries == s.log.entries + m.entries.value.entries && s'.currentTerm >= m.entries.value.term
  {}

  lemma ActorZeroOK(ids: set<int>, c: State, a: Action)
    requires Sound(ids, c) && ZerosOK(c) && Enabled(c, a) && !a.Round?
    ensures ZeroOK(Moved(c.hosts[Actor(a)].raft, a))
  {
    hide Step, Tick, HostOK, VotesExplained, LeadershipExplained, Emits, CommitExplained, Consistent;
    MovedFacts(ids, c, a);
    var s, s' := c.hosts[Actor(a)].raft, Moved(c.hosts[Actor(a)].raft, a);
    assert ZeroOK(s);
    if s'.log.entries != s.log.entries && !s.role.Leader? {
      GrowthIsAccepted(s, Input(a), s');
      if a.Deliver? {
        SentIsVouched(ids, c, a.m);
        TakenZeroOK(s, c.hosts[a.m.from].raft, a.m, s');
      }
    }
  }

  lemma TakenZeroOK(s: RaftState, sender: RaftState, m: Message, s': RaftState)
    requires ZeroOK(s) && ZeroOK(sender) && Vouched(sender, m) && m.entries.Some?
    requires s'.log.entries == s.log.entries + m.entries.value.entries && s'.currentTerm >= m.entries.value.term
    ensures ZeroOK(s')
  {
    var ae, own, grown := m.entries.value, s.log.entries, s'.log.entries;
    forall p {:trigger grown[p]} | 1 <= p < |grown| ensures grown[p].term == 0 ==> grown[p].id == 0 {
      if p >= |own| {
        assert grown[p] == ae.entries[p - |own|] == sender.log.entries[ae.prevLogIdx + 1 + (p - |own|)];
      }
    }
  }

  lemma NextZerosOK(ids: set<int>, c: State, a: Action)
    requires Sound(ids, c) && ZerosOK(c) && Enabled(c, a)
    ensures ZerosOK(Next(c, a))
  {
    hide ZeroOK, HostOK, Moved;
    var n := Actor(a);
    if a.Round? {
      RoundKeepsEntries(ids, n, c.hosts[n]);
      RoundKeepsRoles(ids, n, c.hosts[n]);
      SameZeroOK(c.hosts[n].raft, Next(c, a).hosts[n].raft);
    } else {
      ActorZeroOK(ids, c, a);
    }
  }

  lemma SameZeroOK(s: RaftState, s': RaftState)
    requires ZeroOK(s) && s'.log.entries == s.log.entries && s'.currentTerm == s.currentTerm
    ensures ZeroOK(s')
  {}

  lemma StillLogged(h: Host, h': Host, e: Log)
    requires InLog(h, e) && h.raft.log.entries <= h'.raft.log.entries
    ensures InLog(h', e)
  {
    var p :| 1 <= p < |h.raft.log.entries| && h.raft.log.entries[p] == e;
    assert h'.raft.log.entries[p] == e;
  }

  lemma NextIssuedLogged(ids: set<int>, c: State, a: Action)
    requires Sound(ids, c) && IssuedLogged(c) && Enabled(c, a)
    ensures IssuedLogged(Next(c, a))
  {
    hide HostOK, Moved, InLog;
    NextSound(ids, c, a);
    var n, c' := Actor(a), Next(c, a);
    forall k {:trigger c'.issued[k]} | 0 <= k < |c'.issued| ensures c'.issued[k].leader in c'.hosts && InLog(c'.hosts[c'.issued[k].leader], c'.issued[k].entry) {
      if k < |c.issued| {
        assert c'.issued[k] == c.issued[k];
        var l := c.issued[k].leader;
        assert Grows(c.hosts[l].raft, c'.hosts[l].raft);
        StillLogged(c.hosts[l], c'.hosts[l], c.issued[k].entry);
      } else {
        var gained := StepGains(ids, c, a);
        NewIsLogged(c.hosts[n].raft.log.entries, gained, c'.hosts[n], k - |c.issued|);
      }
    }
  }

  lemma NewIsLogged(own: seq<Log>, gained: seq<Log>, h: Host, k: nat)
    requires |own| >= 1 && k < |gained| && h.raft.log.entries == own + gained
    ensures InLog(h, gained[k])
  {
    assert h.raft.log.entries[|own| + k] == gained[k];
  }

  lemma {:induction false} RunHasFacts(ids: set<int>, cs: seq<State>, acts: seq<Action>, i: nat)
    requires IsRun(ids, cs, acts) && i < |cs|
    ensures RunFacts(ids, cs[i])
  {
    hide Next, Enabled, HostOK, Fair, Accounted, IssuedLogged;
    RunIsSound(ids, cs, acts, i);
    RunIsFair(ids, cs, acts, i);
    RunIsAccounted(ids, cs, acts, i);
    if i == 0 {
      InitFacts(ids);
    } else {
      RunHasFacts(ids, cs, acts, i - 1);
      NextZerosOK(ids, cs[i - 1], acts[i - 1]);
      NextIssuedLogged(ids, cs[i - 1], acts[i - 1]);
    }
  }

  lemma InitFacts(ids: set<int>)
    ensures ZerosOK(Init(ids)) && IssuedLogged(Init(ids))
  {}

  // ---------- Aligned steps keep agreement ----------

  /** A bare entry is the first of its log. */
  ghost predicate BareFirst(c: State) {
    forall n | n in c.hosts :: BareFirstIn(c.hosts[n].raft.log.entries)
  }

  ghost predicate BareFirstIn(entries: seq<Log>) {
    forall q {:trigger entries[q]} | 1 <= q < |entries| && entries[q].term == 0 :: q == 1
  }

  lemma AgreePrefix(x: seq<Log>, y: seq<Log>, z: seq<Log>)
    requires Agree(x, y) && z <= y
    ensures Agree(x, z) && Agree(z, x)
  {
    forall p, q {:trigger x[p], z[q]} | 1 <= p < |x| && 1 <= q < |z| && SameKey(x[p], z[q]) ensures p == q && x[..p + 1] == z[..q + 1] {
      assert z[q] == y[q] && z[..q + 1] == y[..q + 1];
    }
  }

  lemma AgreeFlips(x: seq<Log>, y: seq<Log>)
    requires Agree(x, y)
    ensures Agree(y, x)
  {}

  /** In agreeing logs a term and a position with term at least 1 name one entry: both come from the one
      leader of that term, in whose log they are at that position. */
  lemma SamePositionSameEntry(ids: set<int>, c: State, i: int, j: int, p: nat)
    requires RunFacts(ids, c) && LogsAgree(c) && i in ids && j in ids
    requires 1 <= p < |c.hosts[i].raft.log.entries| && p < |c.hosts[j].raft.log.entries|
    requires c.hosts[i].raft.log.entries[p].term == c.hosts[j].raft.log.entries[p].term >= 1
    ensures c.hosts[i].raft.log.entries[p] == c.hosts[j].raft.log.entries[p]
  {
    hide HostOK, Fair, AssignedOnce, ZerosOK;
    var e, f := c.hosts[i].raft.log.entries[p], c.hosts[j].raft.log.entries[p];
    var a := IssuerOf(c, i, p);
    var b := IssuerOf(c, j, p);
    ElectedIsUnique(c, a, b, e.term);
    assert Agree(c.hosts[i].raft.log.entries, c.hosts[a].raft.log.entries);
    assert Agree(c.hosts[j].raft.log.entries, c.hosts[a].raft.log.entries);
  }

  /** The leader that issued an entry still has it. */
  lemma IssuerOf(c: State, i: int, p: nat) returns (a: int)
    requires Accounted(c) && IssuedLogged(c) && i in c.hosts
    requires 1 <= p < |c.hosts[i].raft.log.entries| && c.hosts[i].raft.log.entries[p].term >= 1
    ensures a in c.hosts && Elected(c, a, c.hosts[i].raft.log.entries[p].term) && InLog(c.hosts[a], c.hosts[i].raft.log.entries[p])
  {
    hide AssignedOnce, Elected, InLog;
    var e := c.hosts[i].raft.log.entries[p];
    assert Traced(c, e);
    var k :| 0 <= k < |c.issued| && c.issued[k].entry == e;
    assert IssuedByLeader(c, c.issued[k]);
    a := c.issued[k].leader;
  }

  /** An aligned append that passes the consistency check makes the receiver's log a prefix of the sender's. */
  lemma AlignedGivesPrefix(ids: set<int>, c: State, m: Message)
    requires RunFacts(ids, c) && LogsAgree(c) && m.to in ids && m.from in ids
    requires Vouched(c.hosts[m.from].raft, m) && Accepts(c.hosts[m.to].raft, m)
    requires |c.hosts[m.to].raft.log.entries| == m.entries.value.prevLogIdx + 1
    ensures c.hosts[m.to].raft.log.entries + m.entries.value.entries <= c.hosts[m.from].raft.log.entries
  {
    hide HostOK, Fair, Accounted, IssuedLogged;
    var s, sender, ae := c.hosts[m.to].raft, c.hosts[m.from].raft, m.entries.value;
    var own, theirs, prev := s.log.entries, sender.log.entries, ae.prevLogIdx;
    assert ZeroOK(s) && ZeroOK(sender) && Valid(s);
    if prev == 0 {
      assert own == theirs[..1];
    } else {
      assert own[prev].id == prev && own[prev].term == theirs[prev].term;
      assert own[prev].term >= 1 by {
        TermAtLeastZero(c, m.to, prev);
      }
      SamePositionSameEntry(ids, c, m.to, m.from, prev);
      assert Agree(own, theirs);
      assert own == own[..prev + 1] == theirs[..prev + 1];
    }
  }

  lemma TermAtLeastZero(c: State, n: int, p: nat)
    requires Accounted(c) && n in c.hosts && 1 <= p < |c.hosts[n].raft.log.entries|
    ensures c.hosts[n].raft.log.entries[p].term >= 0
  {
    assert Traced(c, c.hosts[n].raft.log.entries[p]);
  }

  /** One log changed; it still agrees with itself and with every other. */
  lemma OneLogAgrees(c: State, c': State, n: int)
    requires LogsAgree(c) && n in c.hosts && c'.hosts.Keys == c.hosts.Keys
    requires forall i | i in c.hosts && i != n :: c'.hosts[i] == c.hosts[i]
    requires var grown := c'.hosts[n].raft.log.entries;
             Agree(grown, grown) && forall i | i in c.hosts && i != n :: Agree(c.hosts[i].raft.log.entries, grown)
    ensures LogsAgree(c')
  {
    var grown := c'.hosts[n].raft.log.entries;
    forall i | i in c.hosts && i != n ensures Agree(grown, c.hosts[i].raft.log.entries) {
      AgreeFlips(c.hosts[i].raft.log.entries, grown);
    }
    hide Agree;
  }

  /** No log has an entry with a key that a leader is about to assign. */
  lemma NewKeysNowhere(c: State, n: int, i: int, p: nat, e: Log)
    requires Fair(c) && Accounted(c) && n in c.hosts && i in c.hosts && c.hosts[n].raft.role.Leader?
    requires e.term == c.hosts[n].raft.currentTerm >= 1 && e.id > c.hosts[n].raft.log.LastIndex()
    requires 1 <= p < |c.hosts[i].raft.log.entries|
    ensures !SameKey(c.hosts[i].raft.log.entries[p], e)
  {
    hide Fair, AssignedOnce, IssuedByLeader;
    var f := c.hosts[i].raft.log.entries[p];
    assert Traced(c, f);
    if SameKey(f, e) {
      var k :| 0 <= k < |c.issued| && c.issued[k].entry == f;
      NewKeysAreFresh(c, n, k, e);
    }
  }

  lemma LeaderGrowthAgrees(c: State, n: int, es: seq<Log>, i: int)
    requires Fair(c) && Accounted(c) && LogsAgree(c) && n in c.hosts && i in c.hosts
    requires c.hosts[n].raft.role.Leader? && c.hosts[n].raft.currentTerm >= 1
    ensures var s := c.hosts[n].raft;
            var grown := s.log.entries + NumberEntries(es, s.currentTerm, s.log.LastIndex() + 1);
            Agree(c.hosts[i].raft.log.entries, grown) && Agree(grown, grown)
  {
    hide Fair, Accounted;
    var s, x := c.hosts[n].raft, c.hosts[i].raft.log.entries;
    var own := s.log.entries;
    var gained := NumberEntries(es, s.currentTerm, s.log.LastIndex() + 1);
    var grown := own + gained;
    assert Agree(x, own) && Agree(own, own);
    forall p, q {:trigger x[p], grown[q]} | 1 <= p < |x| && 1 <= q < |grown| && SameKey(x[p], grown[q]) ensures p == q && x[..p + 1] == grown[..q + 1] {
      if q < |own| {
        assert grown[q] == own[q] && grown[..q + 1] == own[..q + 1];
      } else {
        NewKeysNowhere(c, n, i, p, grown[q]);
      }
    }
    forall p, q {:trigger grown[p], grown[q]} | 1 <= p < |grown| && 1 <= q < |grown| && SameKey(grown[p], grown[q])
      ensures p == q && grown[..p + 1] == grown[..q + 1]
    {
      if p < |own| && q < |own| {
        assert SameKey(own[p], own[q]);
      } else if p < |own| {
        NewKeysNowhere(c, n, n, p, grown[q]);
      } else if q < |own| {
        NewKeysNowhere(c, n, n, q, grown[p]);
      }
    }
  }

  /** What an aligned step makes of the acting node's log. */
  lemma AlignedGrowth(ids: set<int>, c: State, a: Action)
    requires RunFacts(ids, c) && LogsAgree(c) && Enabled(c, a) && Aligned(c, a) && !a.Round?
    ensures var s := c.hosts[Actor(a)].raft;
            var grown := Next(c, a).hosts[Actor(a)].raft.log.entries;
            || grown == s.log.entries
            || (a.Deliver? && a.m.from in ids && grown <= c.hosts[a.m.from].raft.log.entries)
            || (a.Propose? && |a.cmds| == 1 && OnlyBare(c, Log(0, 0, a.cmds[0])) && grown == [UNUSED, Log(0, 0, a.cmds[0])])
            || (s.role.Leader? && s.currentTerm >= 1
                && grown == s.log.entries + NumberEntries(Proposed(Input(a)), s.currentTerm, s.log.LastIndex() + 1))
  {
    hide Step, Tick, HostOK, VotesExplained, LeadershipExplained, Emits, CommitExplained, Fair, Accounted, OnlyBare, Consistent, IssuedLogged;
    var s, s' := c.hosts[Actor(a)].raft, Moved(c.hosts[Actor(a)].raft, a);
    MovedFacts(ids, c, a);
    if s'.log.entries != s.log.entries && !s.role.Leader? {
      GrowthIsAccepted(s, Input(a), s');
      if a.Deliver? {
        SentIsVouched(ids, c, a.m);
        AlignedGivesPrefix(ids, c, a.m);
      } else {
        assert ZeroOK(s);
        assert s.log.entries == [UNUSED];
      }
    }
  }

  lemma PrefixAgrees(c: State, n: int, z: seq<Log>, i: int)
    requires LogsAgree(c) && n in c.hosts && i in c.hosts && z <= c.hosts[n].raft.log.entries
    ensures Agree(c.hosts[i].raft.log.entries, z) && Agree(z, z)
  {
    var y := c.hosts[n].raft.log.entries;
    assert Agree(c.hosts[i].raft.log.entries, y) && Agree(y, y);
    AgreePrefix(c.hosts[i].raft.log.entries, y, z);
    AgreePrefix(y, y, z);
    AgreePrefix(z, y, z);
  }

  lemma BareAgrees(c: State, e: Log, i: int)
    requires ZerosOK(c) && BareFirst(c) && OnlyBare(c, e) && i in c.hosts && e.term == 0 && e.id == 0
    ensures Agree(c.hosts[i].raft.log.entries, [UNUSED, e]) && Agree([UNUSED, e], [UNUSED, e])
  {
    var x, z := c.hosts[i].raft.log.entries, [UNUSED, e];
    assert ZeroOK(c.hosts[i].raft) && BareFirstIn(x) && OnlyBareIn(x, e);
    forall p, q {:trigger x[p], z[q]} | 1 <= p < |x| && 1 <= q < |z| && SameKey(x[p], z[q]) ensures p == q && x[..p + 1] == z[..q + 1] {
      assert z[q] == e;
      assert x[..2] == [x[0], x[1]];
    }
  }

  lemma NextAgrees(ids: set<int>, c: State, a: Action)
    requires RunFacts(ids, c) && LogsAgree(c) && BareFirst(c) && Enabled(c, a) && Aligned(c, a)
    ensures LogsAgree(Next(c, a)) && BareFirst(Next(c, a))
  {
    hide HostOK, Fair, Accounted, ZerosOK, IssuedLogged, Agree, Aligned, BareFirstIn, Moved, OnlyBare, NumberEntries;
    var n, c' := Actor(a), Next(c, a);
    var own, grown := c.hosts[n].raft.log.entries, c'.hosts[n].raft.log.entries;
    assert Agree(own, own) && forall i | i in c.hosts :: Agree(c.hosts[i].raft.log.entries, own);
    if a.Round? {
      RoundKeepsEntries(ids, n, c.hosts[n]);
    } else {
      AlignedGrowth(ids, c, a);
      if grown != own {
        GrowthAgrees(ids, c, a, grown);
      }
    }
    OneLogAgrees(c, c', n);
  }

  lemma GrowthAgrees(ids: set<int>, c: State, a: Action, grown: seq<Log>)
    requires RunFacts(ids, c) && LogsAgree(c) && BareFirst(c) && Enabled(c, a) && !a.Round?
    requires var s := c.hosts[Actor(a)].raft;
             || (a.Deliver? && a.m.from in ids && grown <= c.hosts[a.m.from].raft.log.entries)
             || (a.Propose? && |a.cmds| == 1 && OnlyBare(c, Log(0, 0, a.cmds[0])) && grown == [UNUSED, Log(0, 0, a.cmds[0])])
             || (s.role.Leader? && s.currentTerm >= 1
                 && grown == s.log.entries + NumberEntries(Proposed(Input(a)), s.currentTerm, s.log.LastIndex() + 1))
    ensures Agree(grown, grown) && BareFirstIn(grown) && forall i | i in c.hosts :: Agree(c.hosts[i].raft.log.entries, grown)
  {
    hide HostOK, Fair, Accounted, ZerosOK, IssuedLogged, Agree, OnlyBare, LogsAgree;
    var s := c.hosts[Actor(a)].raft;
    assert Actor(a) in c.hosts;
    if a.Deliver? && a.m.from in ids && grown <= c.hosts[a.m.from].raft.log.entries {
      assert BareFirstIn(c.hosts[a.m.from].raft.log.entries);
      forall i | i in c.hosts ensures Agree(c.hosts[i].raft.log.entries, grown) && Agree(grown, grown) {
        PrefixAgrees(c, a.m.from, grown, i);
      }
    } else if a.Propose? && |a.cmds| == 1 && OnlyBare(c, Log(0, 0, a.cmds[0])) && grown == [UNUSED, Log(0, 0, a.cmds[0])] {
      forall i | i in c.hosts ensures Agree(c.hosts[i].raft.log.entries, grown) && Agree(grown, grown) {
        BareAgrees(c, Log(0, 0, a.cmds[0]), i);
      }
    } else {
      assert BareFirstIn(s.log.entries);
      forall i | i in c.hosts ensures Agree(c.hosts[i].raft.log.entries, grown) && Agree(grown, grown) {
        LeaderGrowthAgrees(c, Actor(a), Proposed(Input(a)), i);
      }
    }
  }

  // ---------- Steps that keep agreement are aligned ----------

  lemma DeliveredIsAligned(ids: set<int>, c: State, a: Action)
    requires RunFacts(ids, c) && Enabled(c, a) && a.Deliver? && Accepts(c.hosts[a.m.to].raft, a.m) && LogsAgree(Next(c, a))
    ensures |c.hosts[a.m.to].raft.log.entries| == a.m.entries.value.prevLogIdx + 1
  {
    hide HostOK, Fair, Accounted, ZerosOK, IssuedLogged, Moved, Consistent;
    AcceptAppends(ids, c, a);
    SentIsVouched(ids, c, a.m);
    NextSound(ids, c, a);
    var c', ae := Next(c, a), a.m.entries.value;
    var own, theirs := c.hosts[a.m.to].raft.log.entries, c.hosts[a.m.from].raft.log.entries;
    var grown, theirs' := c'.hosts[a.m.to].raft.log.entries, c'.hosts[a.m.from].raft.log.entries;
    assert Grows(c.hosts[a.m.from].raft, c'.hosts[a.m.from].raft);
    assert grown[|own|] == ae.entries[0] == theirs[ae.prevLogIdx + 1] == theirs'[ae.prevLogIdx + 1];
    assert Agree(grown, theirs') && SameKey(grown[|own|], theirs'[ae.prevLogIdx + 1]);
    assert |own| >= 1 by {
      assert ZeroOK(c.hosts[a.m.to].raft) by {
        ZeroOf(c, a.m.to);
      }
    }
  }

  lemma ZeroOf(c: State, n: int)
    requires ZerosOK(c) && n in c.hosts
    ensures ZeroOK(c.hosts[n].raft)
  {}

  lemma ProposedIsAligned(ids: set<int>, c: State, a: Action)
    requires RunFacts(ids, c) && Enabled(c, a) && a.Propose? && Accepts(c.hosts[a.node].raft, Input(a)) && LogsAgree(Next(c, a))
    ensures |a.cmds| == 1 && |c.hosts[a.node].raft.log.entries| == 1 && OnlyBare(c, Log(0, 0, a.cmds[0]))
  {
    hide HostOK, Fair, Accounted, ZerosOK, IssuedLogged, Moved, Consistent;
    AcceptAppends(ids, c, a);
    var c', n := Next(c, a), a.node;
    ZeroOf(c, n);
    var own, grown := c.hosts[n].raft.log.entries, c'.hosts[n].raft.log.entries;
    var es := Input(a).entries.value.entries;
    var e := Log(0, 0, a.cmds[0]);
    assert Agree(grown, grown);
    assert grown[|own|] == es[0] == e;
    assert forall k {:trigger grown[k]} | |own| <= k < |grown| :: grown[k] == es[k - |own|];
    SamePlace(grown, |own|, |grown| - 1);
    assert SameKey(grown[1], e);
    SamePlace(grown, 1, |own|);
    forall j | j in c.hosts ensures OnlyBareIn(c.hosts[j].raft.log.entries, e) {
      if j != n {
        ZeroOf(c, j);
        assert c'.hosts[j] == c.hosts[j] && Agree(c'.hosts[j].raft.log.entries, grown);
        BareIs(c.hosts[j].raft, grown, e);
      }
    }
  }

  lemma SamePlace(x: seq<Log>, p: nat, q: nat)
    requires Agree(x, x) && 1 <= p < |x| && 1 <= q < |x| && SameKey(x[p], x[q])
    ensures p == q
  {}

  lemma BareIs(s: RaftState, grown: seq<Log>, e: Log)
    requires ZeroOK(s) && Agree(s.log.entries, grown) && |grown| == 2 && grown[1] == e && e.term == 0 && e.id == 0
    ensures OnlyBareIn(s.log.entries, e)
  {
    var y := s.log.entries;
    forall q {:trigger y[q]} | 1 <= q < |y| && y[q].term == 0 ensures y[q] == e {
      assert SameKey(y[q], grown[1]);
      assert y[..2][1] == grown[..2][1];
    }
  }

  lemma AgreeingStepIsAligned(ids: set<int>, c: State, a: Action)
    requires RunFacts(ids, c) && Enabled(c, a) && LogsAgree(Next(c, a))
    ensures Aligned(c, a)
  {
    hide HostOK, Fair, Accounted, ZerosOK, IssuedLogged, Next, LogsAgree, OnlyBare, Consistent;
    if !a.Round? && Accepts(c.hosts[Actor(a)].raft, Input(a)) {
      match a {
        case Deliver(_, _) => DeliveredIsAligned(ids, c, a);
        case Propose(_, _, _) => ProposedIsAligned(ids, c, a);
        case Timer(_, _) =>
      }
    }
  }

  // ---------- The theorems ----------

  lemma {:induction false} AlignedRunAgrees(ids: set<int>, cs: seq<State>, acts: seq<Action>, i: nat)
    requires IsAlignedRun(ids, cs, acts) && i < |cs|
    ensures LogsAgree(cs[i]) && BareFirst(cs[i])
  {
    hide Next, Enabled, Aligned, RunFacts, LogsAgree, BareFirst;
    if i == 0 {
      InitAgrees(ids);
    } else {
      AlignedRunAgrees(ids, cs, acts, i - 1);
      RunHasFacts(ids, cs, acts, i - 1);
      assert Aligned(cs[i - 1], acts[i - 1]);
      NextAgrees(ids, cs[i - 1], acts[i - 1]);
    }
  }

  lemma InitAgrees(ids: set<int>)
    ensures LogsAgree(Init(ids)) && BareFirst(Init(ids))
  {}

  /** In any run, Log Matching holds at every moment exactly when every accepted append and proposal is
      aligned. */
  lemma LogMatchingIffAligned(ids: set<int>, cs: seq<State>, acts: seq<Action>)
    requires IsRun(ids, cs, acts)
    ensures (forall i {:trigger cs[i]} | 0 <= i < |cs| :: LogsAgree(cs[i])) <==> IsAlignedRun(ids, cs, acts)
  {
    hide Next, Enabled, Aligned, LogsAgree, RunFacts;
    if IsAlignedRun(ids, cs, acts) {
      forall i {:trigger cs[i]} | 0 <= i < |cs| ensures LogsAgree(cs[i]) {
        AlignedRunAgrees(ids, cs, acts, i);
      }
    }
    if forall i {:trigger cs[i]} | 0 <= i < |cs| :: LogsAgree(cs[i]) {
      forall i {:trigger acts[i]} | 0 <= i < |acts| ensures Aligned(cs[i], acts[i]) {
        RunHasFacts(ids, cs, acts, i);
        assert LogsAgree(cs[i + 1]);
        AgreeingStepIsAligned(ids, cs[i], acts[i]);
      }
    }
  }

  /** No follower or candidate takes a bare proposal. */
  ghost predicate RefusesBare(cs: seq<State>, acts: seq<Action>)
    requires |cs| == |acts| + 1
  {
    forall i {:trigger acts[i]} | 0 <= i < |acts| :: RefusedBare(cs[i], acts[i])
  }

  ghost predicate RefusedBare(c: State, a: Action) {
    a.Propose? && AllValid(c) && Enabled(c, a) ==> !Accepts(c.hosts[a.node].raft, Input(a))
  }

  /** Where positions hold, an aligned step that takes no bare proposal is contiguous. */
  lemma AlignedIsContiguous(ids: set<int>, c: State, a: Action)
    requires Sound(ids, c) && AllDense(c) && Enabled(c, a) && Aligned(c, a) && RefusedBare(c, a)
    ensures Contiguous(c, a)
  {
    hide HostOK, OnlyBare, Consistent;
    DenseLastIndex(c.hosts[Actor(a)].raft.log);
  }

  lemma {:induction false} AlignedKeepsPositions(ids: set<int>, cs: seq<State>, acts: seq<Action>, i: nat)
    requires IsAlignedRun(ids, cs, acts) && RefusesBare(cs, acts) && i < |cs|
    ensures Matching(cs[i])
    ensures forall j {:trigger acts[j]} | 0 <= j < i :: Contiguous(cs[j], acts[j])
  {
    hide Next, Enabled, HostOK, Fair, Accounted, Contiguous, Aligned, Match, Dense, RefusedBare;
    if i == 0 {
      InitMatching(ids);
    } else {
      AlignedKeepsPositions(ids, cs, acts, i - 1);
      RunHasFacts(ids, cs, acts, i - 1);
      assert Aligned(cs[i - 1], acts[i - 1]) && RefusedBare(cs[i - 1], acts[i - 1]);
      AlignedIsContiguous(ids, cs[i - 1], acts[i - 1]);
      NextMatching(ids, cs[i - 1], acts[i - 1]);
    }
  }

  lemma MatchingAgrees(c: State)
    requires Matching(c)
    ensures LogsAgree(c)
  {
    forall i, j | i in c.hosts && j in c.hosts ensures Agree(c.hosts[i].raft.log.entries, c.hosts[j].raft.log.entries) {
      assert Match(c.hosts[i].raft.log.entries, c.hosts[j].raft.log.entries);
      assert Dense(c.hosts[i].raft.log.entries) && Dense(c.hosts[j].raft.log.entries);
    }
  }

  /** In a run in which no follower or candidate takes a bare proposal, Log Matching holds at every moment
      exactly when the run is contiguous. */
  lemma LogMatchingIffContiguous(ids: set<int>, cs: seq<State>, acts: seq<Action>)
    requires IsRun(ids, cs, acts) && RefusesBare(cs, acts)
    ensures (forall i {:trigger cs[i]} | 0 <= i < |cs| :: LogsAgree(cs[i])) <==> IsContiguousRun(ids, cs, acts)
  {
    hide Next, Enabled, Aligned, LogsAgree, RunFacts, Contiguous, Matching, RefusedBare;
    if IsContiguousRun(ids, cs, acts) {
      forall i {:trigger cs[i]} | 0 <= i < |cs| ensures LogsAgree(cs[i]) {
        RunIsMatching(ids, cs, acts, i);
        MatchingAgrees(cs[i]);
      }
    }
    if forall i {:trigger cs[i]} | 0 <= i < |cs| :: LogsAgree(cs[i]) {
      LogMatchingIffAligned(ids, cs, acts);
      AlignedKeepsPositions(ids, cs, acts, |acts|);
    }
  }
}
