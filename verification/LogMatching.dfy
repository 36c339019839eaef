/** Log Matching (section 5.3 of the Raft paper). Followers append without truncating or checking for
    duplicates, so it holds of contiguous runs: every append that a follower or candidate accepts was sent
    by a peer and continues that node's log exactly where it ends. */
module LogMatching {
  import opened Types
  import opened RaftLogs
  import opened RaftMachine
  import opened RaftFacts
  import opened Cluster
  import opened ElectionSafety
  import opened EntryIdentity

  /** A client's proposal at a follower is harmless while the follower refuses it, which it does in any term
      but 0. */
  ghost predicate Contiguous(c: State, a: Action)
    requires AllValid(c) && Enabled(c, a)
  {
    var s := c.hosts[Actor(a)].raft;
    !a.Round? && Accepts(s, Input(a)) ==> a.Deliver? && a.m.entries.value.prevLogIdx == s.log.LastIndex()
  }

  ghost predicate IsContiguousRun(ids: set<int>, cs: seq<State>, acts: seq<Action>) {
    && IsRun(ids, cs, acts)
    && forall i {:trigger acts[i]} | 0 <= i < |acts| :: Contiguous(cs[i], acts[i])
  }

  /** Every entry sits exactly at the position its Id names. */
  ghost predicate Dense(entries: seq<Log>) {
    |entries| >= 1 && forall p {:trigger entries[p]} | 1 <= p < |entries| :: entries[p].id == p
  }

  ghost predicate Match(x: seq<Log>, y: seq<Log>) {
    forall p {:trigger x[p]} {:trigger y[p]} | 1 <= p < |x| && p < |y| && x[p].term == y[p].term :: x[..p + 1] == y[..p + 1]
  }

  ghost predicate Matching(c: State) {
    && (forall i | i in c.hosts :: Dense(c.hosts[i].raft.log.entries) && c.hosts[i].raft.log.entries[0] == UNUSED)
    && (forall i, j | i in c.hosts && j in c.hosts :: Match(c.hosts[i].raft.log.entries, c.hosts[j].raft.log.entries))
  }

  lemma InitMatching(ids: set<int>)
    ensures Matching(Init(ids))
  {}

  lemma MatchPrefix(x: seq<Log>, y: seq<Log>, z: seq<Log>)
    requires Match(x, y) && z <= y
    ensures Match(x, z) && Match(z, x)
  {
    forall p {:trigger x[p]} {:trigger z[p]} | 1 <= p < |x| && p < |z| && x[p].term == z[p].term ensures x[..p + 1] == z[..p + 1] {
      assert z[p] == y[p] && z[..p + 1] == y[..p + 1];
    }
  }

  lemma DenseLastIndex(l: LogState)
    requires Dense(l.entries)
    ensures l.LastIndex() == |l.entries| - 1
  {}

  /** The heart of the induction step: a contiguous append makes the receiver's log a prefix of the
      sender's. */
  lemma AcceptGivesPrefix(s: RaftState, sender: RaftState, m: Message)
    requires Valid(s) && Valid(sender) && Vouched(sender, m) && Accepts(s, m)
    requires m.entries.value.prevLogIdx == s.log.LastIndex()
    requires Dense(s.log.entries) && Match(s.log.entries, sender.log.entries)
    requires s.log.entries[0] == sender.log.entries[0]
    ensures s.log.entries + m.entries.value.entries <= sender.log.entries
  {
    DenseLastIndex(s.log);
    var ae, own, theirs := m.entries.value, s.log.entries, sender.log.entries;
    var prev := ae.prevLogIdx;
    if prev == 0 {
      assert own == theirs[..1];
    } else {
      assert own[prev].term == theirs[prev].term;
      assert own == own[..prev + 1] == theirs[..prev + 1];
    }
  }

  /** An accepted append keeps every entry at its own position exactly when it is contiguous. */
  lemma DenseIffContiguous(s: RaftState, sender: RaftState, m: Message)
    requires Valid(s) && Dense(s.log.entries) && Accepts(s, m)
    requires Valid(sender) && Dense(sender.log.entries) && Vouched(sender, m)
    ensures Dense(s.log.entries + m.entries.value.entries) <==> m.entries.value.prevLogIdx == s.log.LastIndex()
  {
    DenseLastIndex(s.log);
    var ae, own := m.entries.value, s.log.entries;
    var grown := own + ae.entries;
    assert grown[|own|] == ae.entries[0] == sender.log.entries[ae.prevLogIdx + 1];
    if ae.prevLogIdx == s.log.LastIndex() {
      forall p {:trigger grown[p]} | 1 <= p < |grown| ensures grown[p].id == p {
        if p >= |own| {
          assert grown[p] == ae.entries[p - |own|] == sender.log.entries[p];
        }
      }
    }
  }

  /** A leader's new entries cannot clash with anyone else's: no other log has its term up there. */
  lemma LeaderGrowthMatches(ids: set<int>, c: State, n: int, gained: seq<Log>, i: int)
    requires Sound(ids, c) && Fair(c) && Accounted(c) && Matching(c) && n in ids && i in ids && i != n
    requires c.hosts[n].raft.role.Leader?
    requires forall k {:trigger gained[k]} | 0 <= k < |gained| ::
               gained[k].term == c.hosts[n].raft.currentTerm && gained[k].id == |c.hosts[n].raft.log.entries| + k
    ensures Match(c.hosts[i].raft.log.entries, c.hosts[n].raft.log.entries + gained)
    ensures Match(c.hosts[n].raft.log.entries + gained, c.hosts[i].raft.log.entries)
  {
    hide HostOK, Fair, IssuedByLeader, AssignedOnce;
    var x, y := c.hosts[i].raft.log.entries, c.hosts[n].raft.log.entries;
    var grown := y + gained;
    assert Match(x, y);
    DenseLastIndex(c.hosts[n].raft.log);
    forall p {:trigger x[p]} {:trigger grown[p]} | 1 <= p < |x| && p < |grown| && x[p].term == grown[p].term
      ensures x[..p + 1] == grown[..p + 1]
    {
      if p < |y| {
        assert grown[p] == y[p] && grown[..p + 1] == y[..p + 1];
      } else {
        var e := gained[p - |y|];
        assert Traced(c, x[p]);
        var k :| 0 <= k < |c.issued| && c.issued[k].entry == x[p];
        NewKeysAreFresh(c, n, k, e);
        assert false;
      }
    }
  }

  /** The acting node's log after a contiguous step: the old one, a prefix of the sender's, or the old
      one grown by a leader. */
  lemma ContiguousGrowth(ids: set<int>, c: State, a: Action)
    requires Sound(ids, c) && Matching(c) && Enabled(c, a) && Contiguous(c, a) && !a.Round?
    ensures var s := c.hosts[Actor(a)].raft;
            var grown := Next(c, a).hosts[Actor(a)].raft.log.entries;
            || grown == s.log.entries
            || (a.Deliver? && a.m.from in ids && grown <= c.hosts[a.m.from].raft.log.entries)
            || (s.role.Leader? && grown == s.log.entries + NumberEntries(Proposed(Input(a)), s.currentTerm, |s.log.entries|))
  {
    hide Step, Tick, VotesExplained, LeadershipExplained, Emits, CommitExplained;
    var s := c.hosts[Actor(a)].raft;
    MovedFacts(ids, c, a);
    DenseLastIndex(s.log);
    if Accepts(s, Input(a)) {
      SentIsVouched(ids, c, a.m);
      assert Match(s.log.entries, c.hosts[a.m.from].raft.log.entries);
      AcceptGivesPrefix(s, c.hosts[a.m.from].raft, a.m);
    }
  }

  lemma DenseGrowth(entries: seq<Log>, es: seq<Log>, term: int)
    requires Dense(entries)
    ensures Dense(entries + NumberEntries(es, term, |entries|))
  {}

  /** One log changed; it still matches every other. */
  lemma OneLogChanged(c: State, c': State, n: int)
    requires Matching(c) && n in c.hosts && c'.hosts.Keys == c.hosts.Keys
    requires forall i | i in c.hosts && i != n :: c'.hosts[i] == c.hosts[i]
    requires var grown := c'.hosts[n].raft.log.entries;
             && Dense(grown) && grown[0] == UNUSED
             && forall i | i in c.hosts && i != n ::
                  Match(c.hosts[i].raft.log.entries, grown) && Match(grown, c.hosts[i].raft.log.entries)
    ensures Matching(c')
  {
    assert Match(c'.hosts[n].raft.log.entries, c'.hosts[n].raft.log.entries);
    hide Match, Dense;
  }

  lemma DensePrefix(x: seq<Log>, y: seq<Log>)
    requires Dense(y) && 1 <= |x| && x <= y
    ensures Dense(x)
  {}

  lemma NextMatching(ids: set<int>, c: State, a: Action)
    requires Sound(ids, c) && Fair(c) && Accounted(c) && Matching(c) && Enabled(c, a) && Contiguous(c, a)
    ensures Matching(Next(c, a))
  {
    hide Step, Tick, HostOK, Fair, Accounted, StepFacts, Accepts, Match, Dense, Contiguous, Rounded, Stepped;
    var n, c' := Actor(a), Next(c, a);
    NextSound(ids, c, a);
    var own, grown := c.hosts[n].raft.log.entries, c'.hosts[n].raft.log.entries;
    assert Grows(c.hosts[n].raft, c'.hosts[n].raft);
    DenseLastIndex(c.hosts[n].raft.log);
    if a.Round? {
      RoundKeepsEntries(ids, n, c.hosts[n]);
    } else {
      ContiguousGrowth(ids, c, a);
      if a.Deliver? && a.m.from in ids && grown <= c.hosts[a.m.from].raft.log.entries {
        DensePrefix(grown, c.hosts[a.m.from].raft.log.entries);
        forall i | i in ids && i != n ensures Match(c.hosts[i].raft.log.entries, grown) && Match(grown, c.hosts[i].raft.log.entries) {
          MatchPrefix(c.hosts[i].raft.log.entries, c.hosts[a.m.from].raft.log.entries, grown);
        }
      } else if grown != own {
        var s := c.hosts[n].raft;
        DenseGrowth(own, Proposed(Input(a)), s.currentTerm);
        forall i | i in ids && i != n ensures Match(c.hosts[i].raft.log.entries, grown) && Match(grown, c.hosts[i].raft.log.entries) {
          LeaderGrowthMatches(ids, c, n, NumberEntries(Proposed(Input(a)), s.currentTerm, |own|), i);
        }
      }
    }
    OneLogChanged(c, c', n);
  }

  lemma {:induction false} RunIsMatching(ids: set<int>, cs: seq<State>, acts: seq<Action>, i: nat)
    requires IsContiguousRun(ids, cs, acts) && i < |cs|
    ensures Matching(cs[i])
  {
    hide Next, Enabled, HostOK, Fair, Accounted, Matching;
    if i == 0 {
      InitMatching(ids);
    } else {
      RunIsMatching(ids, cs, acts, i - 1);
      RunIsSound(ids, cs, acts, i - 1);
      RunIsFair(ids, cs, acts, i - 1);
      RunIsAccounted(ids, cs, acts, i - 1);
      assert Contiguous(cs[i - 1], acts[i - 1]);
      NextMatching(ids, cs[i - 1], acts[i - 1]);
    }
  }

  // ---------- Contiguous runs are exactly those that keep positions ----------

  ghost predicate AllDense(c: State) {
    forall n | n in c.hosts :: Dense(c.hosts[n].raft.log.entries)
  }

  /** A bare proposal has Id 0 and cannot sit at its own position. */
  lemma ProposalIsNotDense(own: seq<Log>, cmds: seq<Option<Cmd>>)
    requires |own| >= 1 && |cmds| > 0
    ensures !Dense(own + Proposal(cmds).entries.value.entries)
  {
    assert (own + Proposal(cmds).entries.value.entries)[|own|].id == 0;
  }

  /** What an accepting node's log becomes. */
  lemma AcceptAppends(ids: set<int>, c: State, a: Action)
    requires Sound(ids, c) && Enabled(c, a) && !a.Round? && Accepts(c.hosts[Actor(a)].raft, Input(a))
    ensures var s := c.hosts[Actor(a)].raft;
            Next(c, a).hosts[Actor(a)].raft.log.entries == s.log.entries + Input(a).entries.value.entries
  {
    hide HostOK, Emits, VotesExplained, LeadershipExplained, CommitExplained, Tick;
    assert !a.Timer?;
  }

  lemma DenseStepIsContiguous(ids: set<int>, c: State, a: Action)
    requires Sound(ids, c) && Enabled(c, a) && AllDense(c) && AllDense(Next(c, a))
    ensures Contiguous(c, a)
  {
    hide HostOK, Next, Step, Tick, Consistent;
    var s := c.hosts[Actor(a)].raft;
    if !a.Round? && Accepts(s, Input(a)) {
      AcceptAppends(ids, c, a);
      SameHosts(ids, c, a);
      var grown := s.log.entries + Input(a).entries.value.entries;
      assert Dense(grown);
      match a {
        case Propose(_, cmds, _) =>
          ProposalIsNotDense(s.log.entries, cmds);
        case Deliver(m, _) =>
          SentIsVouched(ids, c, m);
          DenseIffContiguous(s, c.hosts[m.from].raft, m);
        case Timer(_, _) =>
      }
    }
  }

  lemma SameHosts(ids: set<int>, c: State, a: Action)
    requires Sound(ids, c) && Enabled(c, a)
    ensures Next(c, a).hosts.Keys == ids
  {}

  /** In a run, every entry of every log sits at the position its Id names, at every moment, exactly when the
      run is contiguous. */
  lemma PositionsHoldIffContiguous(ids: set<int>, cs: seq<State>, acts: seq<Action>)
    requires IsRun(ids, cs, acts)
    ensures (forall i {:trigger cs[i]} | 0 <= i < |cs| :: AllDense(cs[i])) <==> IsContiguousRun(ids, cs, acts)
  {
    hide Next, Enabled, HostOK, Contiguous, Dense;
    if IsContiguousRun(ids, cs, acts) {
      forall i {:trigger cs[i]} | 0 <= i < |cs| ensures AllDense(cs[i]) {
        RunIsMatching(ids, cs, acts, i);
      }
    }
    if forall i {:trigger cs[i]} | 0 <= i < |cs| :: AllDense(cs[i]) {
      forall i {:trigger acts[i]} | 0 <= i < |acts| ensures Contiguous(cs[i], acts[i]) {
        RunIsSound(ids, cs, acts, i);
        assert AllDense(cs[i]) && AllDense(cs[i + 1]);
        DenseStepIsContiguous(ids, cs[i], acts[i]);
      }
    }
  }

  /** In every contiguous run: two entries with the same Id and term, in any two logs, are at that same
      position in both, and the logs agree on everything up to it. */
  lemma LogMatching(ids: set<int>, cs: seq<State>, acts: seq<Action>, i: nat, a: int, b: int, p: int, q: int)
    requires IsContiguousRun(ids, cs, acts) && i < |cs| && a in cs[i].hosts && b in cs[i].hosts
    requires 1 <= p < |cs[i].hosts[a].raft.log.entries| && 1 <= q < |cs[i].hosts[b].raft.log.entries|
    requires var x, y := cs[i].hosts[a].raft.log.entries[p], cs[i].hosts[b].raft.log.entries[q];
             x.id == y.id && x.term == y.term
    ensures p == q
    ensures cs[i].hosts[a].raft.log.entries[..p + 1] == cs[i].hosts[b].raft.log.entries[..p + 1]
  {
    hide Next, Enabled;
    RunIsMatching(ids, cs, acts, i);
    assert Match(cs[i].hosts[a].raft.log.entries, cs[i].hosts[b].raft.log.entries);
  }

  /** In every run, contiguous or not, every append ever queued or sent is still a slice of its
      sender's log, preceded by the entry whose term it quotes. */
  lemma AppendsAreSlices(ids: set<int>, cs: seq<State>, acts: seq<Action>, i: nat, n: int, m: Message)
    requires IsRun(ids, cs, acts) && i < |cs| && n in cs[i].hosts && m.entries.Some?
    requires m in cs[i].hosts[n].queued || m in cs[i].hosts[n].queuedAfter
    ensures m.from == n && IsSliceOf(m.entries.value, cs[i].hosts[n].raft.log)
  {
    RunIsSound(ids, cs, acts, i);
    assert HostOK(ids, n, cs[i].hosts[n]);
  }
}
