/** The driver of repl/raft.go: one turn of the run loop around Ready and Advance. */
module Driver {
  import opened Types
  import opened RaftMachine
  import opened RaftNode
  import opened Cluster

  /** Messages to nobody or to an unknown member are dropped. */
  function Addressed(members: set<int>, msgs: seq<Message>): seq<Message> {
    if msgs == [] then []
    else
      var m := msgs[0];
      (if m.to != 0 && m.to in members then [m] else []) + Addressed(members, msgs[1..])
  }

  predicate IsAddressed(members: set<int>, m: Message) {
    m.to != 0 && m.to in members
  }

  lemma {:induction false} AddressedConcat(members: set<int>, a: seq<Message>, b: seq<Message>)
    ensures Addressed(members, a + b) == Addressed(members, a) + Addressed(members, b)
  {
    if a == [] {
      assert a + b == b;
    } else {
      assert (a + b)[1..] == a[1..] + b;
      AddressedConcat(members, a[1..], b);
    }
  }

  /** Each addressed message goes out as often as it was to be sent, and no other does. */
  lemma {:induction false} AddressedExactly(members: set<int>, msgs: seq<Message>, m: Message)
    ensures multiset(Addressed(members, msgs))[m] == if IsAddressed(members, m) then multiset(msgs)[m] else 0
  {
    if msgs != [] {
      assert msgs == [msgs[0]] + msgs[1..];
      AddressedExactly(members, msgs[1..], m);
    }
  }

  /** They go out in order: what was before a message stays before it, what was after it after it. */
  lemma AddressedInOrder(members: set<int>, msgs: seq<Message>, i: nat)
    requires i < |msgs|
    ensures Addressed(members, msgs)
         == Addressed(members, msgs[..i]) + (if IsAddressed(members, msgs[i]) then [msgs[i]] else []) + Addressed(members, msgs[i + 1..])
  {
    assert msgs == msgs[..i] + ([msgs[i]] + msgs[i + 1..]);
    AddressedConcat(members, msgs[..i], [msgs[i]] + msgs[i + 1..]);
  }

  lemma {:induction false} AddressedWhole(members: set<int>, msgs: seq<Message>)
    requires forall m | m in msgs :: IsAddressed(members, m)
    ensures Addressed(members, msgs) == msgs
  {
    if msgs != [] {
      assert msgs == [msgs[0]] + msgs[1..];
      assert IsAddressed(members, msgs[0]);
      AddressedWhole(members, msgs[1..]);
    }
  }

  class Node {
    const raft: Raft
    const members: set<int>
    var wal: seq<Log>
    var sent: seq<Message>
    var applyc: seq<ToApply>

    constructor (raft: Raft, members: set<int>)
      ensures this.raft == raft && this.members == members && wal == [] && sent == [] && applyc == []
    {
      this.raft, this.members := raft, members;
      wal, sent, applyc := [], [], [];
    }

    method SaveToWAL(entries: seq<Log>)
      modifies this`wal
      ensures wal == old(wal) + entries
    {
      for i := 0 to |entries|
        invariant wal == old(wal) + entries[..i]
      {
        wal := wal + [entries[i]];
      }
    }

    method Send(msgs: seq<Message>)
      modifies this`sent
      ensures sent == old(sent) + Addressed(members, msgs)
      ensures (forall m | m in msgs :: IsAddressed(members, m)) ==> sent == old(sent) + msgs
    {
      for i := 0 to |msgs|
        invariant sent + Addressed(members, msgs[i..]) == old(sent) + Addressed(members, msgs)
      {
        assert msgs[i..][1..] == msgs[i + 1..];
        if msgs[i].to != 0 {
          if msgs[i].to in members {
            sent := sent + [msgs[i]];
          }
        }
      }
      if forall m | m in msgs :: IsAddressed(members, m) {
        AddressedWhole(members, msgs);
      }
    }

    /** One Ready is persisted, sent and handed over before Advance; the raft state moves as a round of
        the cluster model does. */
    method Turn()
      requires RaftMachine.Valid(raft.View())
      modifies this, raft, raft.raftLog
      ensures var h := Host(old(raft.View()), old(wal), old(applyc), [], [], [], [], []);
              && raft.View() == Rounded(h).raft
              && wal == Rounded(h).wal
              && applyc == Rounded(h).batches
              && sent == old(sent) + Addressed(members, Rounded(h).sent) + Addressed(members, Rounded(h).sentAfter)
    {
      ghost var s := raft.View();
      var ready := raft.TakeReady();
      if ready.Some? {
        var rd := ready.value;
        assert [] + rd.messages == rd.messages && [] + rd.messagesAfterAppend == rd.messagesAfterAppend;
        SaveToWAL(rd.entries);
        Send(rd.messages);
        Send(rd.messagesAfterAppend);
        if |rd.committedEntries| > 0 {
          applyc := applyc + [ToApply(rd.committedEntries, rd.lastCommitIndex)];
        }
        raft.Advance();
      }
    }
  }
}
