/** The reference the store is measured against: a map, and what a sequence of puts makes of it. */
module Tables {
  import opened Types

  type Table = map<Bytes, Bytes>

  type Pair = (Bytes, Bytes)

  function Lookup(m: Table, k: Bytes): Option<Bytes> {
    if k in m then Some(m[k]) else None
  }

  lemma SameLookups(m: Table, n: Table)
    requires forall k :: Lookup(m, k) == Lookup(n, k)
    ensures m == n
  {
    assert forall k :: k in m <==> Lookup(m, k).Some?;
    assert forall k :: k in n <==> Lookup(n, k).Some?;
    assert forall k | k in m :: Some(m[k]) == Lookup(m, k) == Lookup(n, k) == Some(n[k]);
  }

  /** The table after these puts. */
  function Fold(m: Table, puts: seq<Pair>): Table {
    if puts == [] then m
    else
      var last := puts[|puts| - 1];
      Fold(m, puts[..|puts| - 1])[last.0 := last.1]
  }

  /** The last value put for k. */
  function LastPut(puts: seq<Pair>, k: Bytes): Option<Bytes> {
    if puts == [] then None
    else if puts[|puts| - 1].0 == k then Some(puts[|puts| - 1].1)
    else LastPut(puts[..|puts| - 1], k)
  }

  lemma {:induction false} FoldLookup(m: Table, puts: seq<Pair>, k: Bytes)
    ensures Lookup(Fold(m, puts), k) == if LastPut(puts, k).Some? then LastPut(puts, k) else Lookup(m, k)
  {
    if puts != [] {
      FoldLookup(m, puts[..|puts| - 1], k);
    }
  }

  lemma {:induction false} FoldConcat(m: Table, a: seq<Pair>, b: seq<Pair>)
    ensures Fold(m, a + b) == Fold(Fold(m, a), b)
  {
    if b == [] {
      assert a + b == a;
    } else {
      assert (a + b)[..|a + b| - 1] == a + b[..|b| - 1];
      FoldConcat(m, a, b[..|b| - 1]);
    }
  }

  /** Putting again a tail of what was already put changes nothing. */
  lemma TailIsIdempotent(m: Table, a: seq<Pair>, b: seq<Pair>)
    ensures Fold(Fold(m, a + b), b) == Fold(m, a + b)
  {
    hide Fold, LastPut;
    FoldConcat(m, a, b);
    var once := Fold(Fold(m, a), b);
    forall k ensures Lookup(Fold(once, b), k) == Lookup(once, k) {
      FoldLookup(once, b, k);
      FoldLookup(Fold(m, a), b, k);
    }
    SameLookups(Fold(once, b), once);
  }

  /** Where the last value put for k is. */
  lemma {:induction false} LastPutAt(puts: seq<Pair>, k: Bytes, i: nat) returns (j: nat)
    requires i < |puts| && puts[i].0 == k
    ensures i <= j < |puts| && puts[j].0 == k && LastPut(puts, k) == Some(puts[j].1)
    ensures forall l | j < l < |puts| :: puts[l].0 != k
  {
    var last := |puts| - 1;
    if puts[last].0 == k {
      j := last;
    } else {
      j := LastPutAt(puts[..last], k, i);
    }
  }

  /** Nothing is looked up that was not put. */
  lemma {:induction false} LastPutIsPut(puts: seq<Pair>, k: Bytes) returns (j: nat)
    requires LastPut(puts, k).Some?
    ensures j < |puts| && puts[j] == (k, LastPut(puts, k).value)
  {
    var last := |puts| - 1;
    if puts[last].0 == k {
      j := last;
    } else {
      j := LastPutIsPut(puts[..last], k);
    }
  }
}
