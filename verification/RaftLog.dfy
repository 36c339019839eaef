/** The in-memory Raft log of repl/log.go: a value model, and the object that updates it in place. */
module RaftLogs {
  import opened Types

  /** Slot 0 of `entries` is never used; entries start at position 1. */
  const UNUSED := Log(0, 0, None)

  datatype LogState = LogState(entries: seq<Log>, commitIndex: int, lastApplied: int, stableIndex: int) {

    /** The Id of the last entry, which need not be its position. */
    function LastIndex(): int {
      if |entries| <= 1 then 0 else entries[|entries| - 1].id
    }

    function LastTerm(): int {
      if |entries| <= 1 then 0 else entries[|entries| - 1].term
    }

    /** Every entry sits at or beyond the position its Id names. */
    ghost predicate PositionBound() {
      && |entries| >= 1
      && forall i {:trigger entries[i]} | 1 <= i < |entries| :: 0 <= entries[i].id <= i
    }

    ghost predicate Valid() {
      && PositionBound()
      && 0 <= lastApplied <= commitIndex < |entries|
      && 0 <= stableIndex < |entries|
    }

    function Term(i: int): int
      requires PositionBound() && 0 <= i
    {
      if i == 0 || i > LastIndex() then 0 else entries[i].term
    }

    function Append(es: seq<Log>): LogState {
      this.(entries := entries + es)
    }

    function MaybeCommit(index: int): LogState {
      if commitIndex < index <= LastIndex() then this.(commitIndex := index) else this
    }

    function MarkAppliedTill(index: int): LogState {
      if index > lastApplied then this.(lastApplied := index) else this
    }

    function MarkStableTill(index: int): LogState {
      if stableIndex < index <= LastIndex() then this.(stableIndex := index) else this
    }

    /** What Ready hands to the state machine. */
    function CommittedEntries(): seq<Log>
      requires Valid()
    {
      entries[lastApplied + 1..commitIndex + 1]
    }

    /** What Ready hands to the WAL. */
    function VolatileEntries(): seq<Log>
      requires Valid()
    {
      if stableIndex >= LastIndex() then [] else entries[stableIndex + 1..LastIndex() + 1]
    }
  }

  const EMPTY_LOG := LogState([UNUSED], 0, 0, 0)

  /** Appending entries whose Ids stay within a contiguous window that starts no later than the end
      of the log keeps every Id at or below its position. */
  lemma AppendKeepsBound(l: LogState, prev: int, es: seq<Log>)
    requires l.PositionBound() && prev < |l.entries|
    requires forall k {:trigger es[k]} | 0 <= k < |es| :: 0 <= es[k].id <= prev + 1 + k
    ensures l.Append(es).PositionBound()
  {
    var a := l.Append(es).entries;
    forall i {:trigger a[i]} | 1 <= i < |a| ensures 0 <= a[i].id <= i {
      if i >= |l.entries| {
        assert a[i] == es[i - |l.entries|];
      }
    }
  }

  class RaftLog {
    var entries: seq<Log>
    var commitIndex: int
    var lastApplied: int
    var stableIndex: int

    ghost function View(): LogState
      reads this
    {
      LogState(entries, commitIndex, lastApplied, stableIndex)
    }

    constructor ()
      ensures View() == EMPTY_LOG && View().Valid()
    {
      entries, commitIndex, lastApplied, stableIndex := [UNUSED], 0, 0, 0;
    }

    function LastIndex(): (r: int)
      reads this
      ensures r == View().LastIndex()
    {
      if |entries| <= 1 then 0 else entries[|entries| - 1].id
    }

    function LastTerm(): (r: int)
      reads this
      ensures r == View().LastTerm()
    {
      if |entries| <= 1 then 0 else entries[|entries| - 1].term
    }

    /** The lookup never leaves the slice: positions up to the last Id all exist. */
    function Term(i: int): (r: int)
      requires View().PositionBound() && 0 <= i
      reads this
      ensures r == View().Term(i)
    {
      if i == 0 || i > LastIndex() then 0 else entries[i].term
    }

    method Append(es: seq<Log>)
      modifies this
      ensures View() == old(View()).Append(es)
    {
      if |es| == 0 {
        return;
      }
      entries := entries + es;
    }

    /** Exactly commitIndex - lastApplied entries, none skipped by the length guard. */
    method CommittedEntries() returns (result: seq<Log>)
      requires View().Valid()
      ensures result == View().CommittedEntries()
      ensures |result| == commitIndex - lastApplied
    {
      result := [];
      if commitIndex <= lastApplied {
        return;
      }
      var i := lastApplied + 1;
      while i <= commitIndex
        invariant lastApplied + 1 <= i <= commitIndex + 1
        invariant result == entries[lastApplied + 1..i]
      {
        if i < |entries| {
          result := result + [entries[i]];
        }
        i := i + 1;
      }
    }

    method MaybeCommit(index: int) returns (advanced: bool)
      modifies this
      ensures View() == old(View()).MaybeCommit(index)
      ensures advanced <==> old(commitIndex) < index <= old(View()).LastIndex()
    {
      if index > commitIndex && index <= LastIndex() {
        commitIndex := index;
        return true;
      }
      return false;
    }

    method MarkAppliedTill(index: int)
      modifies this
      ensures View() == old(View()).MarkAppliedTill(index)
    {
      if index > lastApplied {
        lastApplied := index;
      }
    }

    method MarkStableTill(index: int)
      modifies this
      ensures View() == old(View()).MarkStableTill(index)
    {
      if index > stableIndex && index <= LastIndex() {
        stableIndex := index;
      }
    }

    method VolatileEntries() returns (result: seq<Log>)
      requires View().Valid()
      ensures result == View().VolatileEntries()
    {
      result := [];
      if stableIndex >= LastIndex() {
        return;
      }
      var i := stableIndex + 1;
      while i <= LastIndex()
        invariant stableIndex + 1 <= i <= LastIndex() + 1
        invariant result == entries[stableIndex + 1..i]
      {
        if i < |entries| {
          result := result + [entries[i]];
        }
        i := i + 1;
      }
    }
  }
}
