/** The B+ tree of btree.go as a value: pages by file offset, a root leaf or one internal root over
    leaves. */
module Trees {
  import opened Types
  import opened KeyOrder
  import opened Pages

  datatype Tree = Tree(pages: map<int, Page>, root: nat, nextFree: nat)

  /** Splitting a full root page dereferences a nil parent. */
  datatype Outcome = Done(tree: Tree) | Panics

  const NEW_TREE := Tree(map[0 := BLANK.(isLeaf := true)], 0, PAGE_SIZE)

  // ---------- Routing ----------

  /** How many leading separators are at or below k. */
  function Reach(keys: seq<Bytes>, k: Bytes): (r: nat)
    ensures r <= |keys|
    ensures forall i | 0 <= i < r :: !Less(k, keys[i])
    ensures r < |keys| ==> Less(k, keys[r])
  {
    if keys == [] || Less(k, keys[0]) then 0 else 1 + Reach(keys[1..], k)
  }

  lemma {:induction false} ReachUnique(keys: seq<Bytes>, k: Bytes, r: nat)
    requires r <= |keys|
    requires forall i {:trigger keys[i]} | 0 <= i < r :: !Less(k, keys[i])
    requires r < |keys| ==> Less(k, keys[r])
    ensures Reach(keys, k) == r
  {
    if keys != [] && r > 0 {
      assert !Less(k, keys[0]);
      ReachUnique(keys[1..], k, r - 1);
    }
  }

  /** The internal cell that findChildPage returns: cell 0, not offsets[0], when no separator applies. */
  function ChildCell(p: Page, k: Bytes): nat
    requires InRange(p)
  {
    var r := Reach(Keys(p), k);
    if r == 0 then 0 else p.offsets[r - 1]
  }

  // ---------- Shape ----------

  /** Separators in order, possibly repeated, and no stale cells. */
  ghost predicate RootShape(r: Page) {
    && !r.isLeaf && InRange(r) && WeaklySorted(Keys(r))
    && 2 <= |r.offsets| == |r.internalCell| <= MAX_INTERNAL_CELLS
    && |r.offsets| <= r.cap
  }

  /** A leaf of an n-leaf tree; each split that added a leaf left five stale cells behind at most. */
  ghost predicate LeafShape(p: Page, n: nat) {
    LeafOK(p) && |p.offsets| >= 1 && |p.leafCell| <= |p.offsets| + 5 * n
  }

  ghost predicate ChildrenShaped(t: Tree, r: Page) {
    forall c {:trigger r.internalCell[c]} | 0 <= c < |r.internalCell| ::
      && r.internalCell[c].fileOffset in t.pages && r.internalCell[c].fileOffset != t.root
      && LeafShape(t.pages[r.internalCell[c].fileOffset], |r.internalCell|)
  }

  /** Enough for every get and put to follow its pointers. */
  ghost predicate Shaped(t: Tree) {
    && t.root in t.pages
    && (forall o | o in t.pages :: t.pages[o].fileOffset == o < t.nextFree)
    && var r := t.pages[t.root];
       if r.isLeaf then LeafOK(r) && |r.leafCell| == |r.offsets|
       else RootShape(r) && ChildrenShaped(t, r)
  }

  // ---------- Operations ----------

  /** The leaf that findChildPage leads to. */
  function LeafFor(t: Tree, k: Bytes): (o: nat)
    requires Shaped(t)
    ensures o in t.pages && LeafOK(t.pages[o]) && |t.pages[o].leafCell| + 1 < TWO_16
    ensures if t.pages[t.root].isLeaf then o == t.root else o != t.root && LeafShape(t.pages[o], |t.pages[t.root].offsets|)
  {
    var r := t.pages[t.root];
    if r.isLeaf then t.root else r.internalCell[ChildCell(r, k)].fileOffset
  }

  function Target(t: Tree, k: Bytes): (p: Page)
    requires Shaped(t)
    ensures LeafOK(p)
  {
    t.pages[LeafFor(t, k)]
  }

  function Get(t: Tree, k: Bytes): Option<Bytes>
    requires Shaped(t)
  {
    LeafGet(Target(t, k), k)
  }

  function AddChild(p: Page, fileOffset: nat, sep: Bytes): Page
    requires InRange(p)
  {
    var i := InsertionPoint(Keys(p), sep);
    if i == |p.offsets| then AppendInternalCell(p, fileOffset, sep) else InsertInternalCell(p, i, fileOffset, sep)
  }

  function NewRoot(left: nat, leftKey: Bytes, right: nat, sep: Bytes): Page {
    AppendInternalCell(AppendInternalCell(BLANK, left, leftKey), right, sep)
  }

  /** The full page q at curr is split; its right half goes to a new page, and the separator to the
      parent or to a new root. */
  function SplitPage(t: Tree, parent: Option<nat>, curr: nat, q: Page): Tree
    requires q.isLeaf && InRange(q) && |q.offsets| > 1
    requires parent.Some? ==> parent.value in t.pages && parent.value != curr && parent.value != t.nextFree && InRange(t.pages[parent.value])
  {
    var right := RightHalf(q).(fileOffset := t.nextFree);
    var sep := Keys(q)[SplitPoint(q)];
    var t1 := Tree(t.pages[curr := LeftHalf(q)][t.nextFree := right], t.root, t.nextFree + PAGE_SIZE);
    if parent.None? then
      var top := NewRoot(q.fileOffset, Keys(q)[0], t.nextFree, sep).(fileOffset := t1.nextFree);
      Tree(t1.pages[t1.nextFree := top], t1.nextFree, t1.nextFree + PAGE_SIZE)
    else
      t1.(pages := t1.pages[parent.value := AddChild(t1.pages[parent.value], t.nextFree, sep)])
  }

  function InsertLeaf(t: Tree, parent: Option<nat>, curr: nat, k: Bytes, v: Bytes): Tree
    requires curr in t.pages && LeafOK(t.pages[curr]) && |t.pages[curr].leafCell| + 1 < TWO_16
    requires parent.Some? ==> parent.value in t.pages && parent.value != curr && parent.value != t.nextFree && InRange(t.pages[parent.value])
  {
    var p := t.pages[curr];
    var q := Upsert(p, k, v);
    if FirstCell(p.leafCell, k).Some? || !IsFull(q) then t.(pages := t.pages[curr := q])
    else
      InsertedKeys(p, Rank(Keys(p), k), k, v);
      SplitPage(t, parent, curr, q)
  }

  function Put(t: Tree, k: Bytes, v: Bytes): Outcome
    requires Shaped(t)
  {
    var o := LeafFor(t, k);
    if t.pages[t.root].isLeaf then Done(InsertLeaf(t, None, o, k, v))
    else
      var t' := InsertLeaf(t, Some(t.root), o, k, v);
      if IsFull(t'.pages[t.root]) then Panics else Done(t')
  }

  // ---------- Unfolding a split ----------

  /** Writing the full page back before splitting it makes no difference. */
  lemma SplitAfterUpsert(t: Tree, parent: Option<nat>, curr: nat, q: Page)
    requires q.isLeaf && InRange(q) && |q.offsets| > 1
    requires parent.Some? ==> parent.value in t.pages && parent.value != curr && parent.value != t.nextFree && InRange(t.pages[parent.value])
    ensures SplitPage(t.(pages := t.pages[curr := q]), parent, curr, q) == SplitPage(t, parent, curr, q)
  {
    assert t.pages[curr := q][curr := LeftHalf(q)] == t.pages[curr := LeftHalf(q)];
  }

  lemma SplitPageUnfolds(t: Tree, parent: Option<nat>, curr: nat, q: Page)
    requires q.isLeaf && InRange(q) && |q.offsets| > 1
    requires parent.Some? ==> parent.value in t.pages && parent.value != curr && parent.value != t.nextFree && InRange(t.pages[parent.value])
    ensures var o := t.nextFree;
            var sep := Keys(q)[SplitPoint(q)];
            var pages := t.pages[curr := LeftHalf(q)][o := RightHalf(q).(fileOffset := o)];
            SplitPage(t, parent, curr, q) ==
              if parent.None?
              then Tree(pages[o + PAGE_SIZE := NewRoot(q.fileOffset, Keys(q)[0], o, sep).(fileOffset := o + PAGE_SIZE)],
                        o + PAGE_SIZE, o + PAGE_SIZE + PAGE_SIZE)
              else Tree(pages[parent.value := AddChild(t.pages[parent.value], o, sep)], t.root, o + PAGE_SIZE)
  {}

  lemma NewTreeIsShaped()
    ensures Shaped(NEW_TREE)
  {
    assert Keys(NEW_TREE.pages[0]) == [];
  }
}
