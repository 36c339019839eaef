/** Pages of the B+ tree (node.go) as values: cells in arrival order under a sorted list of offsets. */
module Pages {
  import opened Types
  import opened KeyOrder

  const PAGE_SIZE := 4096
  const MAX_LEAF_CELLS := 9
  const MAX_INTERNAL_CELLS := 290

  datatype LeafCell = LeafCell(keySize: nat, valSize: nat, key: Bytes, val: Bytes)

  datatype InternalCell = InternalCell(key: Bytes, fileOffset: nat)

  /** `cap` is the capacity of the array behind the `offsets` slice. */
  datatype Page = Page(
    isLeaf: bool, fileOffset: nat, offsets: seq<nat>, cap: nat,
    internalCell: seq<InternalCell>, leafCell: seq<LeafCell>)

  const BLANK := Page(false, 0, [], 0, [], [])

  function NewLeafCell(k: Bytes, v: Bytes): LeafCell {
    LeafCell(|k| % TWO_32, |v| % TWO_32, k, v)
  }

  /** Capacity after appending up to a length of n: Go doubles, or takes what it needs. */
  function Grow(cap: nat, n: nat): (r: nat)
    ensures r >= n && r >= cap
  {
    if n <= cap then cap else if n <= 2 * cap then 2 * cap else n
  }

  function CellCount(p: Page): nat {
    if p.isLeaf then |p.leafCell| else |p.internalCell|
  }

  ghost predicate InRange(p: Page) {
    forall i {:trigger p.offsets[i]} | 0 <= i < |p.offsets| :: p.offsets[i] < CellCount(p)
  }

  function CellKey(p: Page, ofs: nat): Bytes
    requires ofs < CellCount(p)
  {
    if p.isLeaf then p.leafCell[ofs].key else p.internalCell[ofs].key
  }

  /** The keys of the live cells, in the order the offsets list them. */
  function Keys(p: Page): seq<Bytes>
    requires InRange(p)
  {
    seq(|p.offsets|, i requires 0 <= i < |p.offsets| => CellKey(p, p.offsets[i]))
  }

  predicate IsFull(p: Page) {
    if p.isLeaf then |p.offsets| >= MAX_LEAF_CELLS else |p.offsets| > MAX_INTERNAL_CELLS
  }

  /** Point lookups scan every cell, live or stale. */
  function FirstCell(cells: seq<LeafCell>, k: Bytes): (r: Option<nat>)
    ensures r.Some? ==> r.value < |cells| && cells[r.value].key == k
    ensures r.None? <==> forall i | 0 <= i < |cells| :: cells[i].key != k
    ensures r.Some? ==> forall i | 0 <= i < r.value :: cells[i].key != k
  {
    if cells == [] then None
    else if cells[0].key == k then Some(0)
    else
      var r := FirstCell(cells[1..], k);
      assert forall i | 1 <= i < |cells| :: cells[i] == cells[1..][i - 1];
      if r.None? then None else Some(r.value + 1)
  }

  function LeafGet(p: Page, k: Bytes): Option<Bytes> {
    var r := FirstCell(p.leafCell, k);
    if r.None? then None else Some(p.leafCell[r.value].val)
  }

  /** A new live cell at place i of the order. */
  function InsertLeafCell(p: Page, i: nat, k: Bytes, v: Bytes): Page
    requires i <= |p.offsets|
  {
    p.(offsets := p.offsets[..i] + [|p.leafCell| % TWO_16] + p.offsets[i..],
       cap := Grow(p.cap, |p.offsets| + 1),
       leafCell := p.leafCell + [NewLeafCell(k, v)])
  }

  function AppendLeafCell(p: Page, k: Bytes, v: Bytes): Page {
    p.(offsets := p.offsets + [|p.offsets| % TWO_16],
       cap := Grow(p.cap, |p.offsets| + 1),
       leafCell := p.leafCell + [NewLeafCell(k, v)])
  }

  function InsertInternalCell(p: Page, i: nat, fileOffset: nat, k: Bytes): Page
    requires i <= |p.offsets|
  {
    p.(offsets := p.offsets[..i] + [|p.internalCell| % TWO_16] + p.offsets[i..],
       cap := Grow(p.cap, |p.offsets| + 1),
       internalCell := p.internalCell + [InternalCell(k, fileOffset)])
  }

  function AppendInternalCell(p: Page, fileOffset: nat, k: Bytes): Page {
    p.(offsets := p.offsets + [|p.offsets| % TWO_16],
       cap := Grow(p.cap, |p.offsets| + 1),
       internalCell := p.internalCell + [InternalCell(k, fileOffset)])
  }

  function UpdateCell(p: Page, c: nat, v: Bytes): Page
    requires c < |p.leafCell|
  {
    p.(leafCell := p.leafCell[c := p.leafCell[c].(val := v, valSize := |v| % TWO_32)])
  }

  /** What insertLeaf does to the page before it looks whether to split. */
  function Upsert(p: Page, k: Bytes, v: Bytes): Page
    requires p.isLeaf && InRange(p)
  {
    var c := FirstCell(p.leafCell, k);
    if c.Some? then UpdateCell(p, c.value, v) else InsertLeafCell(p, Rank(Keys(p), k), k, v)
  }

  // ---------- Splitting ----------

  function SplitPoint(p: Page): nat {
    |p.offsets| / 2
  }

  function LeftHalf(p: Page): Page {
    p.(offsets := p.offsets[..SplitPoint(p)])
  }

  /** The live cells from place i on, copied in order onto a page. */
  function CopyLeafCells(p: Page, i: nat, onto: Page): Page
    requires p.isLeaf && InRange(p) && i <= |p.offsets|
    decreases |p.offsets| - i
  {
    if i == |p.offsets| then onto
    else CopyLeafCells(p, i + 1, AppendLeafCell(onto, p.leafCell[p.offsets[i]].key, p.leafCell[p.offsets[i]].val))
  }

  function CopyInternalCells(p: Page, i: nat, onto: Page): Page
    requires !p.isLeaf && InRange(p) && i <= |p.offsets|
    decreases |p.offsets| - i
  {
    if i == |p.offsets| then onto
    else
      var c := p.internalCell[p.offsets[i]];
      CopyInternalCells(p, i + 1, AppendInternalCell(onto, c.fileOffset, c.key))
  }

  function RightHalf(p: Page): Page
    requires InRange(p)
  {
    if p.isLeaf then CopyLeafCells(p, SplitPoint(p), BLANK.(isLeaf := true))
    else CopyInternalCells(p, SplitPoint(p), BLANK)
  }

  ghost predicate Identity(offsets: seq<nat>) {
    forall i {:trigger offsets[i]} | 0 <= i < |offsets| :: offsets[i] == i
  }

  lemma {:induction false} CopyLeafCellsFacts(p: Page, i: nat, onto: Page)
    requires p.isLeaf && InRange(p) && i <= |p.offsets| < TWO_16
    requires onto.isLeaf && Identity(onto.offsets) && |onto.offsets| == |onto.leafCell| == i - SplitPoint(p) && SplitPoint(p) <= i
    requires |onto.offsets| <= onto.cap
    ensures var r := CopyLeafCells(p, i, onto);
            && r.isLeaf && r.fileOffset == onto.fileOffset && Identity(r.offsets)
            && |r.offsets| == |r.leafCell| == |p.offsets| - SplitPoint(p) && |r.offsets| <= r.cap
            && r.leafCell[..|onto.leafCell|] == onto.leafCell && (AllSized(onto.leafCell) ==> AllSized(r.leafCell))
            && forall j {:trigger r.leafCell[j]} | |onto.leafCell| <= j < |r.leafCell| ::
                 r.leafCell[j].key == p.leafCell[p.offsets[SplitPoint(p) + j]].key
                 && r.leafCell[j].val == p.leafCell[p.offsets[SplitPoint(p) + j]].val
    decreases |p.offsets| - i
  {
    if i < |p.offsets| {
      var next := AppendLeafCell(onto, p.leafCell[p.offsets[i]].key, p.leafCell[p.offsets[i]].val);
      CopyLeafCellsFacts(p, i + 1, next);
      var r := CopyLeafCells(p, i + 1, next);
      assert r.leafCell[|onto.leafCell|] == next.leafCell[|onto.leafCell|];
    }
  }

  lemma {:induction false} CopyInternalCellsFacts(p: Page, i: nat, onto: Page)
    requires !p.isLeaf && InRange(p) && i <= |p.offsets| < TWO_16
    requires !onto.isLeaf && Identity(onto.offsets) && |onto.offsets| == |onto.internalCell| == i - SplitPoint(p) && SplitPoint(p) <= i
    ensures var r := CopyInternalCells(p, i, onto);
            && !r.isLeaf && Identity(r.offsets)
            && |r.offsets| == |r.internalCell| == |p.offsets| - SplitPoint(p)
            && r.internalCell[..|onto.internalCell|] == onto.internalCell
            && forall j {:trigger r.internalCell[j]} | |onto.internalCell| <= j < |r.internalCell| ::
                 r.internalCell[j] == p.internalCell[p.offsets[SplitPoint(p) + j]]
    decreases |p.offsets| - i
  {
    if i < |p.offsets| {
      var c := p.internalCell[p.offsets[i]];
      var next := AppendInternalCell(onto, c.fileOffset, c.key);
      CopyInternalCellsFacts(p, i + 1, next);
      var r := CopyInternalCells(p, i + 1, next);
      assert r.internalCell[|onto.internalCell|] == next.internalCell[|onto.internalCell|];
    }
  }

  /** The right half holds the upper live cells in order, and its first key separates the two. */
  lemma RightHalfFirstKey(p: Page)
    requires InRange(p) && 1 < |p.offsets| < TWO_16
    ensures var r := RightHalf(p);
            && r.isLeaf == p.isLeaf && |r.offsets| == CellCount(r) == |p.offsets| - SplitPoint(p) && Identity(r.offsets)
            && InRange(r) && Keys(r) == Keys(p)[SplitPoint(p)..]
  {
    hide CopyLeafCells, CopyInternalCells;
    if p.isLeaf {
      CopyLeafCellsFacts(p, SplitPoint(p), BLANK.(isLeaf := true));
    } else {
      CopyInternalCellsFacts(p, SplitPoint(p), BLANK);
    }
    assert InRange(RightHalf(p));
    assert forall j | 0 <= j < |RightHalf(p).offsets| :: Keys(RightHalf(p))[j] == Keys(p)[SplitPoint(p) + j];
  }

  // ---------- Leaf pages reached by inserts and splits ----------

  ghost predicate Live(p: Page, c: nat) {
    exists i :: 0 <= i < |p.offsets| && p.offsets[i] == c
  }

  /** The two size fields say how long key and value are. */
  predicate SizesOK(c: LeafCell) {
    c.keySize == |c.key| % TWO_32 && c.valSize == |c.val| % TWO_32
  }

  ghost predicate AllSized(cells: seq<LeafCell>) {
    forall i {:trigger cells[i]} | 0 <= i < |cells| :: SizesOK(cells[i])
  }

  ghost predicate DistinctKeys(cells: seq<LeafCell>) {
    forall i, j {:trigger cells[i], cells[j]} | 0 <= i < j < |cells| :: cells[i].key != cells[j].key
  }

  /** A page on its way through insertLeaf: the offsets list live cells in strictly increasing key order,
      no two cells, live or stale, have the same key, the size fields are right, and a page that has been split keeps an offsets
      array with room for a full page. */
  ghost predicate LeafFilled(p: Page) {
    && p.isLeaf && InRange(p) && Sorted(Keys(p)) && DistinctKeys(p.leafCell) && AllSized(p.leafCell)
    && |p.offsets| <= MAX_LEAF_CELLS
    && |p.offsets| <= p.cap
    && |p.offsets| <= |p.leafCell| < TWO_16
    && (|p.leafCell| > |p.offsets| ==> p.cap >= MAX_LEAF_CELLS)
  }

  /** A page between two puts. */
  ghost predicate LeafOK(p: Page) {
    LeafFilled(p) && |p.offsets| < MAX_LEAF_CELLS
  }

  /** Cells below the bound are live; stale cells, left behind by splits, are at or above it. */
  ghost predicate StaleAbove(p: Page, hi: Option<Bytes>)
    requires p.isLeaf && InRange(p)
  {
    && (hi.Some? ==> forall i {:trigger p.offsets[i]} | 0 <= i < |p.offsets| :: Less(p.leafCell[p.offsets[i]].key, hi.value))
    && (forall c {:trigger Live(p, c)} {:trigger p.leafCell[c]} | 0 <= c < |p.leafCell| ::
          Live(p, c) || (hi.Some? && !Less(p.leafCell[c].key, hi.value)))
  }

  predicate Below(k: Bytes, hi: Option<Bytes>) {
    hi.Some? ==> Less(k, hi.value)
  }

  /** Re-slicing offsets[:i+1] for an insert stays within the backing array, at the end included: with no
      stale cells the end is reached by the append branch instead. */
  lemma ResliceInBounds(p: Page, i: nat)
    requires LeafOK(p) && i <= |p.offsets|
    ensures i == |p.leafCell| || i + 1 <= p.cap
  {}

  lemma InsertShift<T>(s: seq<T>, i: nat, x: T, j: nat)
    requires i <= |s| && j <= |s|
    ensures (s[..i] + [x] + s[i..])[j] == if j < i then s[j] else if j == i then x else s[j - 1]
  {}

  /** Inserting a fresh key at its rank keeps the live keys sorted. */
  lemma InsertSorted(keys: seq<Bytes>, k: Bytes)
    requires Sorted(keys) && k !in keys
    ensures var r := Rank(keys, k); Sorted(keys[..r] + [k] + keys[r..])
  {
    hide Less, Rank;
    Order();
    RankBounds(keys, k);
    var r := Rank(keys, k);
    var grown := keys[..r] + [k] + keys[r..];
    forall i, j {:trigger grown[i], grown[j]} | 0 <= i < j < |grown| ensures Less(grown[i], grown[j]) {
      InsertShift(keys, r, k, i);
      InsertShift(keys, r, k, j);
      if r < |keys| {
        assert keys[r] in keys;
      }
    }
  }

  lemma InsertedKeys(p: Page, i: nat, k: Bytes, v: Bytes)
    requires p.isLeaf && InRange(p) && i <= |p.offsets| && |p.leafCell| < TWO_16
    ensures var q := InsertLeafCell(p, i, k, v);
            InRange(q) && Keys(q) == Keys(p)[..i] + [k] + Keys(p)[i..]
  {
    var q := InsertLeafCell(p, i, k, v);
    forall j {:trigger q.offsets[j]} | 0 <= j < |q.offsets|
      ensures q.offsets[j] < |q.leafCell| && q.leafCell[q.offsets[j]].key == (Keys(p)[..i] + [k] + Keys(p)[i..])[j]
    {
      InsertShift(p.offsets, i, |p.leafCell|, j);
      InsertShift(Keys(p), i, k, j);
    }
  }
}
