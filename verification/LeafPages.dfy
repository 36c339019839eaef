/** Leaf insert and split: the live cells stay sorted, a split divides them, and every lookup is accounted
    for, the stale cells a split leaves behind included. */
module LeafPages {
  import opened Types
  import opened KeyOrder
  import opened Pages

  // ---------- Lookups ----------

  lemma FirstCellIs(cells: seq<LeafCell>, c: nat)
    requires DistinctKeys(cells) && c < |cells|
    ensures FirstCell(cells, cells[c].key) == Some(c)
  {
    var r := FirstCell(cells, cells[c].key).value;
    assert cells[r].key == cells[c].key;
  }

  /** A lookup of a live key finds its live cell and no other. */
  lemma LookupFindsLive(p: Page, i: nat)
    requires LeafFilled(p) && i < |p.offsets|
    ensures FirstCell(p.leafCell, Keys(p)[i]) == Some(p.offsets[i])
    ensures LeafGet(p, Keys(p)[i]) == Some(p.leafCell[p.offsets[i]].val)
  {
    hide FirstCell;
    FirstCellIs(p.leafCell, p.offsets[i]);
  }

  /** No stale cell is ever returned for a key below the bound. */
  lemma LookupIsLive(p: Page, hi: Option<Bytes>, k: Bytes)
    requires p.isLeaf && InRange(p) && StaleAbove(p, hi) && Below(k, hi)
    ensures LeafGet(p, k).Some? ==> Live(p, FirstCell(p.leafCell, k).value)
  {}

  lemma FirstCellOfUpdate(cells: seq<LeafCell>, c: nat, v: Bytes, size: nat, k: Bytes)
    requires c < |cells|
    ensures FirstCell(cells[c := cells[c].(val := v, valSize := size)], k) == FirstCell(cells, k)
  {
    var cells' := cells[c := cells[c].(val := v, valSize := size)];
    assert forall i | 0 <= i < |cells| :: cells'[i].key == cells[i].key;
  }

  lemma FirstCellOfAppend(cells: seq<LeafCell>, x: LeafCell, k: Bytes)
    ensures FirstCell(cells + [x], k) ==
            if FirstCell(cells, k).Some? then FirstCell(cells, k) else if x.key == k then Some(|cells|) else None
  {
    var r, first := FirstCell(cells + [x], k), FirstCell(cells, k);
    hide FirstCell;
    assert forall i | 0 <= i < |cells| :: (cells + [x])[i] == cells[i];
    assert (cells + [x])[|cells|] == x;
    if first.Some? {
      assert (cells + [x])[first.value].key == k;
    }
  }

  // ---------- One key put into a leaf ----------

  lemma UpdateLeaf(p: Page, c: nat, v: Bytes)
    requires LeafOK(p) && c < |p.leafCell|
    ensures var q := UpdateCell(p, c, v);
            && LeafOK(q) && Keys(q) == Keys(p)
            && forall k :: LeafGet(q, k) == if k == p.leafCell[c].key then Some(v) else LeafGet(p, k)
  {
    hide Less, FirstCell;
    var q := UpdateCell(p, c, v);
    assert forall i | 0 <= i < |p.leafCell| :: q.leafCell[i].key == p.leafCell[i].key;
    assert Keys(q) == Keys(p);
    FirstCellIs(p.leafCell, c);
    forall k ensures LeafGet(q, k) == if k == p.leafCell[c].key then Some(v) else LeafGet(p, k) {
      FirstCellOfUpdate(p.leafCell, c, v, |v| % TWO_32, k);
      FirstCellKey(p.leafCell, k);
    }
  }

  lemma FirstCellKey(cells: seq<LeafCell>, k: Bytes)
    ensures FirstCell(cells, k).Some? ==> FirstCell(cells, k).value < |cells| && cells[FirstCell(cells, k).value].key == k
  {}

  lemma InsertLeafLookups(p: Page, i: nat, k: Bytes, v: Bytes)
    requires i <= |p.offsets| && FirstCell(p.leafCell, k).None?
    ensures forall x :: LeafGet(InsertLeafCell(p, i, k, v), x) == if x == k then Some(v) else LeafGet(p, x)
  {
    forall x ensures LeafGet(InsertLeafCell(p, i, k, v), x) == if x == k then Some(v) else LeafGet(p, x) {
      FirstCellOfAppend(p.leafCell, NewLeafCell(k, v), x);
    }
  }

  lemma LiveKeyHasCell(p: Page, k: Bytes)
    requires p.isLeaf && InRange(p) && FirstCell(p.leafCell, k).None?
    ensures k !in Keys(p)
  {}

  lemma InsertLeafFacts(p: Page, k: Bytes, v: Bytes)
    requires LeafOK(p) && FirstCell(p.leafCell, k).None? && |p.leafCell| + 1 < TWO_16
    ensures var r := Rank(Keys(p), k);
            var q := InsertLeafCell(p, r, k, v);
            LeafFilled(q) && Keys(q) == Keys(p)[..r] + [k] + Keys(p)[r..]
  {
    hide Less, FirstCell, Rank;
    var r := Rank(Keys(p), k);
    LiveKeyHasCell(p, k);
    InsertSorted(Keys(p), k);
    InsertedKeys(p, r, k, v);
    NewKeyStaysDistinct(p.leafCell, k, v);
  }

  lemma NewKeyStaysDistinct(cells: seq<LeafCell>, k: Bytes, v: Bytes)
    requires DistinctKeys(cells) && FirstCell(cells, k).None?
    ensures DistinctKeys(cells + [NewLeafCell(k, v)])
  {}

  /** The live keys after k was put: k joins them at its rank unless some cell of the page has it. */
  function GrownKeys(p: Page, k: Bytes): seq<Bytes>
    requires p.isLeaf && InRange(p)
  {
    var r := Rank(Keys(p), k);
    if FirstCell(p.leafCell, k).Some? then Keys(p) else Keys(p)[..r] + [k] + Keys(p)[r..]
  }

  /** One key put into a leaf: the lookup of exactly that key changes, and the live keys stay sorted and
      gain at most that key. */
  lemma UpsertLeaf(p: Page, k: Bytes, v: Bytes)
    requires LeafOK(p) && |p.leafCell| + 1 < TWO_16
    ensures var q := Upsert(p, k, v);
            && LeafFilled(q) && q.fileOffset == p.fileOffset && Keys(q) == GrownKeys(p, k)
            && |q.leafCell| - |p.leafCell| == |q.offsets| - |p.offsets| == (if FirstCell(p.leafCell, k).Some? then 0 else 1)
            && (forall x :: LeafGet(q, x) == if x == k then Some(v) else LeafGet(p, x))
  {
    hide Less, FirstCell, Rank, LeafGet;
    if FirstCell(p.leafCell, k).Some? {
      FirstCellKey(p.leafCell, k);
      UpdateLeaf(p, FirstCell(p.leafCell, k).value, v);
    } else {
      InsertLeafFacts(p, k, v);
      InsertLeafLookups(p, Rank(Keys(p), k), k, v);
    }
  }

  /** The stale cells stay out of reach below the bound. */
  lemma UpsertStale(p: Page, hi: Option<Bytes>, k: Bytes, v: Bytes)
    requires LeafOK(p) && StaleAbove(p, hi) && Below(k, hi) && |p.leafCell| + 1 < TWO_16
    ensures InRange(Upsert(p, k, v)) && StaleAbove(Upsert(p, k, v), hi)
  {
    hide Less, Rank;
    if FirstCell(p.leafCell, k).Some? {
      var q := Upsert(p, k, v);
      assert forall i | 0 <= i < |p.leafCell| :: q.leafCell[i].key == p.leafCell[i].key;
      assert forall x {:trigger Live(q, x)} :: Live(q, x) == Live(p, x);
    } else {
      InsertLeafFacts(p, k, v);
      InsertLeafLiveness(p, Rank(Keys(p), k), k, v, hi);
    }
  }

  lemma InsertLeafLiveness(p: Page, i: nat, k: Bytes, v: Bytes, hi: Option<Bytes>)
    requires p.isLeaf && InRange(p) && StaleAbove(p, hi) && Below(k, hi) && i <= |p.offsets| && |p.leafCell| < TWO_16
    requires InRange(InsertLeafCell(p, i, k, v))
    ensures StaleAbove(InsertLeafCell(p, i, k, v), hi)
  {
    hide Less;
    var q := InsertLeafCell(p, i, k, v);
    if hi.Some? {
      forall j {:trigger q.offsets[j]} | 0 <= j < |q.offsets| ensures Less(q.leafCell[q.offsets[j]].key, hi.value) {
        InsertShift(p.offsets, i, |p.leafCell|, j);
      }
    }
    assert q.offsets[i] == |p.leafCell|;
    forall c | 0 <= c < |q.leafCell| ensures Live(q, c) || (hi.Some? && !Less(q.leafCell[c].key, hi.value)) {
      if c < |p.leafCell| && Live(p, c) {
        var j :| 0 <= j < |p.offsets| && p.offsets[j] == c;
        assert q.offsets[if j < i then j else j + 1] == c;
      }
    }
  }

  // ---------- Splitting ----------

  lemma RightHalfFacts(p: Page)
    requires LeafFilled(p) && |p.offsets| == MAX_LEAF_CELLS
    ensures var r, s := RightHalf(p), SplitPoint(p);
            && r.isLeaf && r.fileOffset == 0 && Identity(r.offsets)
            && |r.offsets| == |r.leafCell| == |p.offsets| - s && |r.offsets| <= r.cap
            && InRange(r) && Keys(r) == Keys(p)[s..] && Sorted(Keys(r)) && AllSized(r.leafCell)
            && forall j {:trigger r.leafCell[j]} | 0 <= j < |r.leafCell| ::
                 r.leafCell[j].key == Keys(p)[s + j] && r.leafCell[j].val == p.leafCell[p.offsets[s + j]].val
  {
    hide Less, CopyLeafCells;
    CopyLeafCellsFacts(p, SplitPoint(p), BLANK.(isLeaf := true));
    assert InRange(RightHalf(p));
    assert Keys(RightHalf(p)) == Keys(p)[SplitPoint(p)..];
  }

  lemma RightHalfOK(p: Page)
    requires LeafFilled(p) && |p.offsets| == MAX_LEAF_CELLS
    ensures LeafOK(RightHalf(p))
  {
    hide Less, CopyLeafCells, RightHalf;
    Order();
    RightHalfFacts(p);
    var r := RightHalf(p);
    forall i, j {:trigger r.leafCell[i], r.leafCell[j]} | 0 <= i < j < |r.leafCell| ensures r.leafCell[i].key != r.leafCell[j].key {
      assert Less(Keys(r)[i], Keys(r)[j]);
    }
  }

  /** The right half answers for the keys that moved to it and for no others. */
  lemma RightHalfLookup(p: Page, x: Bytes)
    requires LeafFilled(p) && |p.offsets| == MAX_LEAF_CELLS
    ensures LeafGet(RightHalf(p), x) == if x in Keys(p)[SplitPoint(p)..] then LeafGet(p, x) else None
  {
    hide Less, RightHalf, FirstCell;
    RightHalfFacts(p);
    RightHalfOK(p);
    var r, s := RightHalf(p), SplitPoint(p);
    if x in Keys(p)[s..] {
      var j :| 0 <= j < |r.leafCell| && Keys(p)[s..][j] == x;
      LookupFindsLive(p, s + j);
      FirstCellIs(r.leafCell, j);
    } else {
      FirstCellKey(r.leafCell, x);
      assert forall j {:trigger r.leafCell[j]} | 0 <= j < |r.leafCell| :: r.leafCell[j].key == Keys(p)[s..][j];
    }
  }

  /** A split divides the live cells into two halves, neither empty nor full, with the separator above
      every key on the left and equal to the first on the right. The left half keeps every cell, so it
      still answers as the whole page did. */
  lemma SplitLeaf(p: Page)
    requires LeafFilled(p) && |p.offsets| == MAX_LEAF_CELLS
    ensures var l, r, s := LeftHalf(p), RightHalf(p), SplitPoint(p);
            var sep := Keys(p)[s];
            && LeafOK(l) && LeafOK(r) && Keys(l) == Keys(p)[..s] && Keys(r) == Keys(p)[s..]
            && 0 < |l.offsets| == s && 0 < |r.offsets| == |p.offsets| - s == |r.leafCell|
            && (forall i | 0 <= i < s :: Less(Keys(p)[i], sep)) && (forall i | s <= i < |Keys(p)| :: !Less(Keys(p)[i], sep))
            && (forall x :: LeafGet(l, x) == LeafGet(p, x))
            && (forall x :: LeafGet(r, x) == if x in Keys(p)[s..] then LeafGet(p, x) else None)
  {
    hide Less, RightHalf, FirstCell;
    Order();
    var l, s := LeftHalf(p), SplitPoint(p);
    assert Keys(l) == Keys(p)[..s];
    RightHalfFacts(p);
    RightHalfOK(p);
    forall x ensures LeafGet(RightHalf(p), x) == if x in Keys(p)[s..] then LeafGet(p, x) else None {
      RightHalfLookup(p, x);
    }
  }

  /** After a split the left half's stale cells are at or above the separator, the right half has none. */
  lemma SplitStale(p: Page, hi: Option<Bytes>)
    requires LeafFilled(p) && StaleAbove(p, hi) && |p.offsets| == MAX_LEAF_CELLS
    ensures LeftHalf(p).isLeaf && InRange(LeftHalf(p)) && RightHalf(p).isLeaf && InRange(RightHalf(p))
    ensures StaleAbove(LeftHalf(p), Some(Keys(p)[SplitPoint(p)])) && StaleAbove(RightHalf(p), hi)
  {
    LeftHalfStale(p, hi);
    RightHalfStale(p, hi);
  }

  lemma LeftHalfStale(p: Page, hi: Option<Bytes>)
    requires LeafFilled(p) && StaleAbove(p, hi) && |p.offsets| == MAX_LEAF_CELLS
    ensures LeftHalf(p).isLeaf && InRange(LeftHalf(p)) && StaleAbove(LeftHalf(p), Some(Keys(p)[SplitPoint(p)]))
  {
    hide Less;
    Order();
    var l, s := LeftHalf(p), SplitPoint(p);
    var sep := Keys(p)[s];
    forall i {:trigger l.offsets[i]} | 0 <= i < |l.offsets| ensures Less(l.leafCell[l.offsets[i]].key, sep) {
      assert Less(Keys(p)[i], Keys(p)[s]);
    }
    forall c | 0 <= c < |l.leafCell| ensures Live(l, c) || !Less(l.leafCell[c].key, sep) {
      if Live(p, c) {
        var j :| 0 <= j < |p.offsets| && p.offsets[j] == c;
        if j < s {
          assert l.offsets[j] == c;
        } else if s < j {
          assert Less(Keys(p)[s], Keys(p)[j]);
        }
      } else {
        assert Less(p.leafCell[p.offsets[s]].key, hi.value);
      }
    }
  }

  lemma RightHalfStale(p: Page, hi: Option<Bytes>)
    requires LeafFilled(p) && StaleAbove(p, hi) && |p.offsets| == MAX_LEAF_CELLS
    ensures RightHalf(p).isLeaf && InRange(RightHalf(p)) && StaleAbove(RightHalf(p), hi)
  {
    hide Less, CopyLeafCells, RightHalf;
    RightHalfFacts(p);
    var r, s := RightHalf(p), SplitPoint(p);
    forall c | 0 <= c < |r.leafCell| ensures Live(r, c) {
      assert r.offsets[c] == c;
    }
    if hi.Some? {
      forall i {:trigger r.offsets[i]} | 0 <= i < |r.offsets| ensures Less(r.leafCell[r.offsets[i]].key, hi.value) {
        assert r.leafCell[i].key == p.leafCell[p.offsets[s + i]].key;
      }
    }
  }
}
