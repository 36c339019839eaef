/** Recovery: replaying the WAL into the tree (replay.go). The tree is taken as the map it refines. */
module Replay {
  import opened Types
  import opened Tables
  import opened Wal

  /** The tree with the two indexes of its metadata file. */
  datatype Recovery = Recovery(kv: Table, lastCommit: int, lastApplied: int)

  predicate IsPut(l: Log) {
    l.data.Some? && l.data.value.op == PUT
  }

  /** The puts among the entries; entries without a command and unknown operations are skipped. */
  function PutsOf(ls: seq<Log>): (r: seq<Pair>)
    ensures |r| <= |ls|
  {
    if ls == [] then []
    else
      var last := ls[|ls| - 1];
      PutsOf(ls[..|ls| - 1]) + (if IsPut(last) then [(last.data.value.key, last.data.value.value)] else [])
  }

  /** The entries before the first whose Id is beyond the commit index. */
  function Committed(ls: seq<Log>, lastCommit: int): seq<Log> {
    if ls == [] || ls[0].id > lastCommit then [] else [ls[0]] + Committed(ls[1..], lastCommit)
  }

  function Replayed(r: Recovery, wal: seq<Log>): Recovery {
    if r.lastApplied >= r.lastCommit then r else
    var puts := PutsOf(Committed(LogsFrom(wal, r.lastApplied + 1), r.lastCommit));
    Recovery(Fold(r.kv, puts), r.lastCommit, if |puts| > 0 then r.lastApplied + |puts| else r.lastApplied)
  }

  class Store {
    var kv: Table
    var lastCommit: int
    var lastApplied: int

    ghost function View(): Recovery
      reads this
    {
      Recovery(kv, lastCommit, lastApplied)
    }
  }

  method ReplayWAL(store: Store, wal: LogManager)
    modifies store
    ensures store.View() == Replayed(old(store.View()), wal.logs)
  {
    var lastCommitIndex, lastAppliedIndex := store.lastCommit, store.lastApplied;
    if lastAppliedIndex >= lastCommitIndex {
      return;
    }
    var entries := wal.GetLogsAfter(lastAppliedIndex + 1);
    var appliedCount, i := 0, 0;
    while i < |entries| && entries[i].id <= lastCommitIndex
      invariant 0 <= i <= |entries|
      invariant forall j {:trigger entries[j]} | 0 <= j < i :: entries[j].id <= lastCommitIndex
      invariant store.kv == Fold(old(store.kv), PutsOf(entries[..i]))
      invariant appliedCount == |PutsOf(entries[..i])|
      modifies store`kv
    {
      var e := entries[i];
      PutsOfNext(old(store.kv), entries, i);
      if e.data.Some? && e.data.value.op == PUT {
        store.kv := store.kv[e.data.value.key := e.data.value.value];
        appliedCount := appliedCount + 1;
      }
      i := i + 1;
    }
    CommittedIs(entries, lastCommitIndex, i);
    if appliedCount > 0 {
      store.lastApplied, store.lastCommit := lastAppliedIndex + appliedCount, lastCommitIndex;
    }
  }

  lemma PutsOfNext(m: Table, ls: seq<Log>, i: nat)
    requires i < |ls|
    ensures var puts := PutsOf(ls[..i]);
            if IsPut(ls[i])
            then |PutsOf(ls[..i + 1])| == |puts| + 1
                 && Fold(m, PutsOf(ls[..i + 1])) == Fold(m, puts)[ls[i].data.value.key := ls[i].data.value.value]
            else PutsOf(ls[..i + 1]) == puts
  {
    assert ls[..i + 1][..i] == ls[..i];
    var puts, more := PutsOf(ls[..i]), PutsOf(ls[..i + 1]);
    if IsPut(ls[i]) {
      assert more[..|more| - 1] == puts;
    }
  }

  lemma {:induction false} CommittedIs(ls: seq<Log>, lastCommit: int, i: nat)
    requires i <= |ls| && (forall j {:trigger ls[j]} | 0 <= j < i :: ls[j].id <= lastCommit)
    requires i < |ls| ==> ls[i].id > lastCommit
    ensures Committed(ls, lastCommit) == ls[..i]
  {
    if i > 0 {
      CommittedIs(ls[1..], lastCommit, i - 1);
      assert ls[..i] == [ls[0]] + ls[1..][..i - 1];
    }
  }

  // ---------- What a list of entries puts ----------

  lemma {:induction false} PutsOfConcat(a: seq<Log>, b: seq<Log>)
    ensures PutsOf(a + b) == PutsOf(a) + PutsOf(b)
  {
    if b == [] {
      assert a + b == a;
    } else {
      assert (a + b)[..|a + b| - 1] == a + b[..|b| - 1];
      PutsOfConcat(a, b[..|b| - 1]);
    }
  }

  /** Exactly the entries with a command whose operation is spelled "PUT" put something. */
  lemma OnePut(l: Log)
    ensures PutsOf([l]) ==
            if l.data.Some? && l.data.value.op == ['P' as int, 'U' as int, 'T' as int] then [(l.data.value.key, l.data.value.value)] else []
  {
    assert [l][..0] == [];
  }

  lemma {:induction false} AllPuts(ls: seq<Log>)
    ensures |PutsOf(ls)| == |ls| <==> forall i | 0 <= i < |ls| :: IsPut(ls[i])
  {
    if ls != [] {
      var n := |ls| - 1;
      AllPuts(ls[..n]);
      assert forall i | 0 <= i < n :: ls[..n][i] == ls[i];
    }
  }

  // ---------- Replay over a numbered WAL ----------

  ghost predicate Numbered(wal: seq<Log>) {
    forall i {:trigger wal[i]} | 0 <= i < |wal| :: wal[i].id == i + 1
  }

  /** Index x as a position in the WAL. */
  function Clamp(x: int, n: nat): (r: nat)
    ensures r <= n
  {
    if x < 0 then 0 else if x > n then n else x
  }

  lemma CommittedRange(r: Recovery, wal: seq<Log>)
    requires Numbered(wal) && r.lastApplied < r.lastCommit && 0 <= r.lastCommit
    ensures Committed(LogsFrom(wal, r.lastApplied + 1), r.lastCommit)
         == wal[Clamp(r.lastApplied, |wal|)..Clamp(r.lastCommit, |wal|)]
  {
    var a, m := Clamp(r.lastApplied, |wal|), Clamp(r.lastCommit, |wal|);
    assert LogsFrom(wal, r.lastApplied + 1) == wal[a..];
    CommittedIs(wal[a..], r.lastCommit, m - a);
  }

  /** The tree reflects the first n entries. */
  ghost predicate Reflects(r: Recovery, wal: seq<Log>, n: nat)
    requires n <= |wal|
  {
    r.kv == Fold(map[], PutsOf(wal[..n]))
  }

  lemma PrefixExtends(wal: seq<Log>, a: nat, m: nat)
    requires a <= m <= |wal|
    ensures PutsOf(wal[..m]) == PutsOf(wal[..a]) + PutsOf(wal[a..m])
    ensures |PutsOf(wal[a..m])| == m - a <==> forall i {:trigger wal[i]} | a <= i < m :: IsPut(wal[i])
  {
    assert wal[..m] == wal[..a] + wal[a..m];
    PutsOfConcat(wal[..a], wal[a..m]);
    var es := wal[a..m];
    AllPuts(es);
    assert forall i {:trigger wal[i]} | a <= i < m :: es[i - a] == wal[i];
    assert forall i {:trigger es[i]} | 0 <= i < |es| :: es[i] == wal[a + i];
  }

  /** From a tree that reflects the entries up to lastApplied, replay reaches the commit index, or the
      end of the WAL; the stored lastApplied catches up with it exactly when no entry was skipped. */
  lemma ReplayCatchesUp(r: Recovery, wal: seq<Log>)
    requires Numbered(wal) && 0 <= r.lastApplied <= |wal| && Reflects(r, wal, r.lastApplied)
    ensures var r', m := Replayed(r, wal), Clamp(r.lastCommit, |wal|);
            if r.lastApplied < r.lastCommit
            then && Reflects(r', wal, m) && r'.lastCommit == r.lastCommit && r.lastApplied <= r'.lastApplied <= m
                 && (r'.lastApplied == m <==> forall i {:trigger wal[i]} | r.lastApplied <= i < m :: IsPut(wal[i]))
            else r' == r
  {
    hide Fold, PutsOf, Committed;
    if r.lastApplied < r.lastCommit {
      var a, m := r.lastApplied, Clamp(r.lastCommit, |wal|);
      CommittedRange(r, wal);
      PrefixExtends(wal, a, m);
      FoldConcat(map[], PutsOf(wal[..a]), PutsOf(wal[a..m]));
    }
  }

  function ReplayedTimes(r: Recovery, wal: seq<Log>, n: nat): Recovery {
    if n == 0 then r else Replayed(ReplayedTimes(r, wal, n - 1), wal)
  }

  /** However often recovery is repeated, the tree is the one the first replay left, even while skipped
      entries keep the stored lastApplied behind. */
  lemma {:induction false} ReplayIsIdempotent(r: Recovery, wal: seq<Log>, n: nat)
    requires Numbered(wal) && 0 <= r.lastApplied <= |wal| && Reflects(r, wal, r.lastApplied) && n >= 1
    ensures var r' := ReplayedTimes(r, wal, n);
            && r'.kv == Replayed(r, wal).kv && r'.lastCommit == r.lastCommit
            && r.lastApplied <= r'.lastApplied
  {
    hide Fold, PutsOf, Committed;
    if n == 1 {
      assert ReplayedTimes(r, wal, 1) == Replayed(ReplayedTimes(r, wal, 0), wal) == Replayed(r, wal);
    } else {
      ReplayIsIdempotent(r, wal, n - 1);
      ReplayCatchesUp(r, wal);
      var before := ReplayedTimes(r, wal, n - 1);
      assert ReplayedTimes(r, wal, n) == Replayed(before, wal);
      hide ReplayedTimes, Replayed;
      ReplayAgain(before, wal);
    }
  }

  /** A tree that reflects everything committed is not changed by another replay. */
  lemma ReplayAgain(r: Recovery, wal: seq<Log>)
    requires Numbered(wal) && 0 <= r.lastApplied
    requires r.lastApplied < r.lastCommit ==> Reflects(r, wal, Clamp(r.lastCommit, |wal|))
    ensures var r' := Replayed(r, wal); r'.kv == r.kv && r'.lastCommit == r.lastCommit && r.lastApplied <= r'.lastApplied
  {
    hide Fold, PutsOf, Committed;
    if r.lastApplied < r.lastCommit {
      var a, m := Clamp(r.lastApplied, |wal|), Clamp(r.lastCommit, |wal|);
      CommittedRange(r, wal);
      PrefixExtends(wal, a, m);
      TailIsIdempotent(map[], PutsOf(wal[..a]), PutsOf(wal[a..m]));
    }
  }

  /** A WAL whose one committed entry is skipped: however often it is replayed, the stored lastApplied
      stays at 0 and never reaches the commit index. */
  lemma {:induction false} SkippedEntryIsNeverCounted(n: nat)
    ensures var r, wal := Recovery(map[], 1, 0), [Log(1, 1, None)];
            && Numbered(wal) && Reflects(r, wal, r.lastApplied)
            && ReplayedTimes(r, wal, n) == r && r.lastApplied < r.lastCommit
  {
    hide Committed, LogsFrom;
    OneReplaySkips();
    if n > 0 {
      SkippedEntryIsNeverCounted(n - 1);
    }
  }

  lemma OneReplaySkips()
    ensures var r, wal := Recovery(map[], 1, 0), [Log(1, 1, None)];
            Numbered(wal) && Reflects(r, wal, 0) && Replayed(r, wal) == r
  {
    hide Committed, LogsFrom;
    var r, wal := Recovery(map[], 1, 0), [Log(1, 1, None)];
    CommittedRange(r, wal);
    assert wal[0..1] == wal && wal[..0] == [];
    assert PutsOf(wal) == PutsOf([]) + [];
  }

  // ---------- Replay from a reopened file ----------

  lemma {:induction false} StoredPutsAlike(ls: seq<Log>)
    ensures PutsOf(StoredAll(ls)) == PutsOf(ls)
  {
    if ls != [] {
      var n := |ls| - 1;
      assert StoredAll(ls)[n] == Stored(ls[n]) && StoredAll(ls)[..n] == StoredAll(ls[..n]);
      StoredPutsAlike(ls[..n]);
    }
  }

  lemma {:induction false} CommittedOfStored(ls: seq<Log>, lastCommit: int)
    ensures Committed(StoredAll(ls), lastCommit) == StoredAll(Committed(ls, lastCommit))
  {
    if ls != [] && ls[0].id <= lastCommit {
      assert StoredAll(ls)[0] == Stored(ls[0]) && StoredAll(ls)[1..] == StoredAll(ls[1..]);
      CommittedOfStored(ls[1..], lastCommit);
      var tail := Committed(ls[1..], lastCommit);
      assert StoredAll([ls[0]] + tail) == [Stored(ls[0])] + StoredAll(tail);
    }
  }

  /** Replaying the entries read back from the file recovers exactly what replaying the appended entries
      would: what the file drops plays no part. */
  lemma ReplayFromFile(r: Recovery, logs: seq<Log>)
    requires AllFit(logs)
    ensures Decode(Encode(logs)).Ok?
    ensures Replayed(r, Decode(Encode(logs)).value) == Replayed(r, logs)
  {
    hide Encode, Decode, AllFit, Stored, Fold, PutsOf, Committed;
    FileRoundTrip(logs);
    var from := r.lastApplied + 1;
    assert LogsFrom(StoredAll(logs), from) == StoredAll(LogsFrom(logs, from));
    CommittedOfStored(LogsFrom(logs, from), r.lastCommit);
    StoredPutsAlike(Committed(LogsFrom(logs, from), r.lastCommit));
  }
}
