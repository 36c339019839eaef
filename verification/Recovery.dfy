/** Recovery of a node from the WAL that its own driver has written. */
module Recoveries {
  import opened Types
  import opened Tables
  import opened Wal
  import opened Replay
  import opened RaftLogs
  import C = Cluster
  import L = LogMatching
  import X = AppliedPrefixes

  /** In every contiguous run each node's WAL is numbered from 1, as replay needs it. */
  lemma WalIsNumbered(ids: set<int>, cs: seq<C.State>, acts: seq<C.Action>, i: nat, n: int)
    requires L.IsContiguousRun(ids, cs, acts) && i < |cs| && n in cs[i].hosts
    ensures Numbered(cs[i].hosts[n].wal) && [UNUSED] + cs[i].hosts[n].wal <= cs[i].hosts[n].raft.log.entries
  {
    hide L.IsContiguousRun, L.Matching;
    RunOf(ids, cs, acts);
    X.ExactlyOnceHandOff(ids, cs, acts, i, n);
    L.RunIsMatching(ids, cs, acts, i);
    X.DenseLog(cs[i], n);
    StartsUnused(cs[i], n);
    var h := cs[i].hosts[n];
    forall p {:trigger h.wal[p]} | 0 <= p < |h.wal| ensures h.wal[p].id == p + 1 {
      assert h.wal[p] == h.raft.log.entries[p + 1];
    }
  }

  lemma StartsUnused(c: C.State, n: int)
    requires L.Matching(c) && n in c.hosts
    ensures |c.hosts[n].raft.log.entries| >= 1 && c.hosts[n].raft.log.entries[0] == UNUSED
  {}

  lemma RunOf(ids: set<int>, cs: seq<C.State>, acts: seq<C.Action>)
    requires L.IsContiguousRun(ids, cs, acts)
    ensures C.IsRun(ids, cs, acts)
  {}

  /** What recovery finds on the node: a tree that reflects the first k entries of its WAL, and its commit
      index. */
  function Found(h: C.Host, k: nat): Recovery
    requires k <= |h.wal|
  {
    Recovery(Fold(map[], PutsOf(h.wal[..k])), h.raft.log.commitIndex, k)
  }

  /** In every contiguous run, at every moment, on every node, and from a tree that reflects any first part of
      its WAL: one replay or many, of the entries as they were appended, leave the tree of the PUTs of
      everything committed that the WAL holds; and so does replay of what is read back from the file. */
  lemma NodeRecovers(ids: set<int>, cs: seq<C.State>, acts: seq<C.Action>, i: nat, n: int, k: nat, times: nat)
    requires L.IsContiguousRun(ids, cs, acts) && i < |cs| && n in cs[i].hosts && k <= |cs[i].hosts[n].wal| && times >= 1
    ensures var h := cs[i].hosts[n];
            var m := Clamp(h.raft.log.commitIndex, |h.wal|);
            && ReplayedTimes(Found(h, k), h.wal, times).kv
               == Fold(map[], PutsOf(h.wal[..if k < h.raft.log.commitIndex then m else k]))
            && (AllFit(h.wal) ==> Decode(Encode(h.wal)).Ok?
                                  && Replayed(Found(h, k), Decode(Encode(h.wal)).value) == Replayed(Found(h, k), h.wal))
  {
    hide L.IsContiguousRun, Fold, PutsOf, Encode, Decode, AllFit, ReplayedTimes, Replayed, Numbered;
    WalIsNumbered(ids, cs, acts, i, n);
    var h := cs[i].hosts[n];
    ReplayIsIdempotent(Found(h, k), h.wal, times);
    ReplayCatchesUp(Found(h, k), h.wal);
    if AllFit(h.wal) {
      ReplayFromFile(Found(h, k), h.wal);
    }
  }
}
