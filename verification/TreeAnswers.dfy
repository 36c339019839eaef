/** What every put does to every answer, in every tree that puts can grow: the exact condition under which
    the tree is a plain map. */
module TreeAnswers {
  import opened Types
  import opened KeyOrder
  import opened Pages
  import opened LeafPages
  import opened Trees
  import opened Tables

  // ---------- One put, seen before it is made ----------

  predicate Splits(t: Tree, k: Bytes)
    requires Shaped(t)
  {
    FirstCell(Target(t, k).leafCell, k).None? && |Target(t, k).offsets| + 1 == MAX_LEAF_CELLS
  }

  /** The live keys of the leaf that k goes to, k included. */
  function Grown(t: Tree, k: Bytes): seq<Bytes>
    requires Shaped(t)
  {
    GrownKeys(Target(t, k), k)
  }

  lemma GrownLength(t: Tree, k: Bytes)
    requires Shaped(t) && Splits(t, k)
    ensures |Grown(t, k)| == MAX_LEAF_CELLS
  {}

  /** The separator of the split: the first key that moves to the new page. */
  function SplitKey(t: Tree, k: Bytes): Bytes
    requires Shaped(t) && Splits(t, k)
  {
    Grown(t, k)[MAX_LEAF_CELLS / 2]
  }

  function MovedKeys(t: Tree, k: Bytes): seq<Bytes>
    requires Shaped(t) && Splits(t, k)
  {
    Grown(t, k)[MAX_LEAF_CELLS / 2..]
  }

  /** The separator that the new one is put in front of. */
  function NextSeparator(t: Tree, k: Bytes): Option<Bytes>
    requires Shaped(t) && Splits(t, k)
  {
    var r := t.pages[t.root];
    if r.isLeaf then None
    else
      var i := InsertionPoint(Keys(r), SplitKey(t, k));
      if i < |r.offsets| then Some(Keys(r)[i]) else None
  }

  /** The keys that the new page is asked for: from its separator up to the next one. */
  predicate InSpan(t: Tree, k: Bytes, x: Bytes)
    requires Shaped(t) && Splits(t, k)
  {
    !Less(x, SplitKey(t, k)) && Below(x, NextSeparator(t, k))
  }

  /** The put splits its leaf, and some cell of the leaf has a key that the new page will be asked for
      but that does not move there. Only a stale cell can: the live ones below the separator stay, the
      others move. */
  predicate Strands(t: Tree, k: Bytes)
    requires Shaped(t)
  {
    Splits(t, k)
    && exists c :: 0 <= c < |Target(t, k).leafCell|
         && InSpan(t, k, Target(t, k).leafCell[c].key) && Target(t, k).leafCell[c].key !in MovedKeys(t, k)
  }

  // ---------- Which leaf answers for which key ----------

  /** The i-th live key of the leaf that k goes to is answered by that leaf, or it is one of its last four
      and above k. */
  ghost predicate ServedAt(t: Tree, k: Bytes, i: nat)
    requires Shaped(t)
  {
    i < |Keys(Target(t, k))| ==>
      || LeafFor(t, Keys(Target(t, k))[i]) == LeafFor(t, k)
      || (|Keys(Target(t, k))| - i <= 4 && Less(k, Keys(Target(t, k))[i]))
  }

  ghost predicate Served(t: Tree)
    requires Shaped(t)
  {
    forall k, i: nat {:trigger ServedAt(t, k, i)} :: ServedAt(t, k, i)
  }

  /** What every put keeps, starting from the empty tree. */
  ghost predicate WellFormed(t: Tree) {
    Shaped(t) && Served(t)
  }

  lemma NewTreeIsWellFormed()
    ensures WellFormed(NEW_TREE) && forall k :: Get(NEW_TREE, k) == None
  {
    NewTreeIsShaped();
  }

  /** The live keys up to the separator are all answered by the leaf they are in. */
  lemma LowerHalfRouted(t: Tree, k: Bytes, i: nat)
    requires WellFormed(t) && Splits(t, k) && i <= MAX_LEAF_CELLS / 2
    ensures |Grown(t, k)| == MAX_LEAF_CELLS && LeafFor(t, Grown(t, k)[i]) == LeafFor(t, k)
  {
    hide Less, FirstCell, Rank, LeafFor;
    Order();
    var ks := Keys(Target(t, k));
    var r := Rank(ks, k);
    InsertShift(ks, r, k, i);
    RankBounds(ks, k);
    if i < r {
      assert ServedAt(t, k, i);
      RankBelow(ks, k, i);
    } else if i > r {
      assert ServedAt(t, k, i - 1);
    }
  }

  lemma RankBelow(keys: seq<Bytes>, k: Bytes, i: nat)
    requires i < Rank(keys, k)
    ensures Less(keys[i], k)
  {}

  /** All keys of the span are answered by one leaf before the split: the one that splits. */
  lemma SpanRouted(t: Tree, k: Bytes, x: Bytes)
    requires WellFormed(t) && Splits(t, k) && InSpan(t, k, x)
    ensures LeafFor(t, x) == LeafFor(t, k)
  {
    hide Less, FirstCell, Reach, Grown;
    LowerHalfRouted(t, k, MAX_LEAF_CELLS / 2);
    var r := t.pages[t.root];
    if !r.isLeaf {
      Order();
      var ks, sep := Keys(r), SplitKey(t, k);
      InsertionPointSeparates(ks, sep);
      var i := InsertionPoint(ks, sep);
      ReachUnique(ks, x, i);
      ReachUnique(ks, sep, i);
    }
  }

  // ---------- The root gains a separator ----------

  /** The place of a new separator splits the separators at most it from those at least it. */
  ghost predicate Separates(ks: seq<Bytes>, i: nat, sep: Bytes) {
    && i <= |ks|
    && (forall j {:trigger ks[j]} | 0 <= j < i :: !Less(sep, ks[j]))
    && (forall j {:trigger ks[j]} | i <= j < |ks| :: !Less(ks[j], sep))
  }

  lemma InsertWeaklySorted(ks: seq<Bytes>, i: nat, sep: Bytes)
    requires WeaklySorted(ks) && Separates(ks, i, sep)
    ensures WeaklySorted(ks[..i] + [sep] + ks[i..])
  {
    hide Less;
    Order();
    var grown := ks[..i] + [sep] + ks[i..];
    forall a, b {:trigger grown[a], grown[b]} | 0 <= a < b < |grown| ensures !Less(grown[b], grown[a]) {
      InsertShift(ks, i, sep, a);
      InsertShift(ks, i, sep, b);
    }
  }

  /** Only keys from the new separator up to the next one reach further than they did. */
  lemma ReachOfInsert(ks: seq<Bytes>, i: nat, sep: Bytes, x: Bytes)
    requires WeaklySorted(ks) && Separates(ks, i, sep)
    ensures Reach(ks[..i] + [sep] + ks[i..], x) == if Less(x, sep) then Reach(ks, x) else Reach(ks, x) + 1
    ensures Less(x, sep) ==> Reach(ks, x) <= i
    ensures !Less(x, sep) ==> Reach(ks, x) >= i && (Reach(ks, x) == i <==> (i < |ks| ==> Less(x, ks[i])))
  {
    hide Less, Reach;
    Order();
    var grown, r := ks[..i] + [sep] + ks[i..], Reach(ks, x);
    ReachFacts(ks, x);
    if Less(x, sep) {
      assert i < |ks| ==> !Less(ks[i], sep);
      forall j {:trigger grown[j]} | 0 <= j < r ensures !Less(x, grown[j]) {
        InsertShift(ks, i, sep, j);
      }
      InsertShift(ks, i, sep, r);
      ReachUnique(grown, x, r);
    } else {
      assert r < |ks| ==> Less(x, ks[r]);
      forall j {:trigger grown[j]} | 0 <= j < r + 1 ensures !Less(x, grown[j]) {
        InsertShift(ks, i, sep, j);
      }
      if r < |ks| {
        InsertShift(ks, i, sep, r + 1);
      }
      ReachUnique(grown, x, r + 1);
    }
  }

  lemma ReachFacts(ks: seq<Bytes>, x: Bytes)
    ensures Reach(ks, x) <= |ks|
    ensures forall j {:trigger ks[j]} | 0 <= j < Reach(ks, x) :: !Less(x, ks[j])
    ensures Reach(ks, x) < |ks| ==> Less(x, ks[Reach(ks, x)])
  {}

  lemma AddChildFacts(r: Page, o: nat, sep: Bytes)
    requires RootShape(r)
    ensures var p, i := AddChild(r, o, sep), InsertionPoint(Keys(r), sep);
            && p.isLeaf == r.isLeaf && p.fileOffset == r.fileOffset && |p.offsets| <= p.cap
            && p.offsets == r.offsets[..i] + [|r.internalCell|] + r.offsets[i..]
            && p.internalCell == r.internalCell + [InternalCell(sep, o)]
            && InRange(p) && Keys(p) == Keys(r)[..i] + [sep] + Keys(r)[i..]
            && Separates(Keys(r), i, sep) && WeaklySorted(Keys(p))
  {
    hide Less, InsertionPoint;
    InsertionPointSeparates(Keys(r), sep);
    var p, i := AddChild(r, o, sep), InsertionPoint(Keys(r), sep);
    assert p.offsets == r.offsets[..i] + [|r.internalCell|] + r.offsets[i..];
    assert p.internalCell == r.internalCell + [InternalCell(sep, o)];
    hide AddChild;
    AddedKeys(r, p, i, InternalCell(sep, o));
    InsertWeaklySorted(Keys(r), i, sep);
  }

  lemma AddedKeys(r: Page, p: Page, i: nat, cell: InternalCell)
    requires !r.isLeaf && !p.isLeaf && InRange(r) && i <= |r.offsets|
    requires p.offsets == r.offsets[..i] + [|r.internalCell|] + r.offsets[i..] && p.internalCell == r.internalCell + [cell]
    ensures InRange(p) && Keys(p) == Keys(r)[..i] + [cell.key] + Keys(r)[i..]
  {
    forall j {:trigger p.offsets[j]} | 0 <= j < |p.offsets|
      ensures p.offsets[j] < |p.internalCell| && p.internalCell[p.offsets[j]].key == (Keys(r)[..i] + [cell.key] + Keys(r)[i..])[j]
    {
      InsertShift(r.offsets, i, |r.internalCell|, j);
      InsertShift(Keys(r), i, cell.key, j);
    }
  }

  lemma ChildCellInRange(r: Page, x: Bytes)
    requires RootShape(r)
    ensures ChildCell(r, x) < |r.internalCell|
  {}

  /** The new child is asked for the keys from its separator up to the next; all others go where they
      went. */
  lemma AddChildRoutes(r: Page, o: nat, sep: Bytes, x: Bytes)
    requires RootShape(r)
    ensures var p, i := AddChild(r, o, sep), InsertionPoint(Keys(r), sep);
            && InRange(p)
            && ChildCell(p, x) == if !Less(x, sep) && (i < |r.offsets| ==> Less(x, Keys(r)[i])) then |r.internalCell| else ChildCell(r, x)
  {
    hide Less, InsertionPoint, Reach, AddChild;
    AddChildFacts(r, o, sep);
    var i := InsertionPoint(Keys(r), sep);
    ReachOfInsert(Keys(r), i, sep, x);
    var reach := Reach(Keys(r), x);
    if Less(x, sep) {
      if reach > 0 {
        InsertShift(r.offsets, i, |r.internalCell|, reach - 1);
      }
    } else {
      InsertShift(r.offsets, i, |r.internalCell|, reach);
    }
  }

  // ---------- A put that does not split ----------

  /** The leaf after the put, before it is split. */
  function Upserted(t: Tree, k: Bytes, v: Bytes): (q: Page)
    requires Shaped(t)
    ensures LeafFilled(q) && Keys(q) == Grown(t, k) && q.fileOffset == LeafFor(t, k)
    ensures |q.leafCell| - |Target(t, k).leafCell| == |q.offsets| - |Target(t, k).offsets|
    ensures Splits(t, k) <==> |q.offsets| == MAX_LEAF_CELLS
    ensures forall x :: LeafGet(q, x) == if x == k then Some(v) else LeafGet(Target(t, k), x)
  {
    UpsertLeaf(Target(t, k), k, v);
    Upsert(Target(t, k), k, v)
  }

  lemma PutStays(t: Tree, k: Bytes, v: Bytes)
    requires Shaped(t) && !Splits(t, k)
    ensures Put(t, k, v) == Done(t.(pages := t.pages[LeafFor(t, k) := Upserted(t, k, v)]))
  {
    hide Less, FirstCell, ChildCell, LeafGet;
    assert !IsFull(Upserted(t, k, v));
  }

  lemma StayRoutes(t: Tree, k: Bytes, v: Bytes)
    requires Shaped(t) && !Splits(t, k)
    ensures var t' := Put(t, k, v).tree;
            Shaped(t') && t'.root == t.root && forall x :: LeafFor(t', x) == LeafFor(t, x)
  {
    hide Less, FirstCell, ChildCell, LeafGet, Put, Upsert;
    PutStays(t, k, v);
    var t', q := Put(t, k, v).tree, Upserted(t, k, v);
    if !t.pages[t.root].isLeaf {
      assert LeafShape(q, |t.pages[t.root].offsets|);
    }
  }

  lemma StayAnswers(t: Tree, k: Bytes, v: Bytes)
    requires WellFormed(t) && !Splits(t, k)
    ensures var t' := Put(t, k, v).tree;
            WellFormed(t') && forall x :: Get(t', x) == if x == k then Some(v) else Get(t, x)
  {
    hide Less, FirstCell, LeafFor, Put, Upsert, Shaped, LeafGet;
    PutStays(t, k, v);
    StayRoutes(t, k, v);
    var t' := Put(t, k, v).tree;
    forall x, i: nat ensures ServedAt(t', x, i) {
      StayServed(t, k, v, x, i);
    }
  }

  lemma StayServed(t: Tree, k: Bytes, v: Bytes, x: Bytes, i: nat)
    requires WellFormed(t) && !Splits(t, k) && Put(t, k, v).Done? && Shaped(Put(t, k, v).tree)
    requires forall y :: LeafFor(Put(t, k, v).tree, y) == LeafFor(t, y)
    requires Put(t, k, v).tree.pages == t.pages[LeafFor(t, k) := Upserted(t, k, v)]
    ensures ServedAt(Put(t, k, v).tree, x, i)
  {
    hide Less, FirstCell, LeafFor, Put, Upsert, Shaped, LeafGet, Rank;
    var t', ks := Put(t, k, v).tree, Keys(Target(t, k));
    if LeafFor(t, x) != LeafFor(t, k) || Grown(t, k) == ks {
      assert ServedAt(t, x, i);
    } else if i < |Grown(t, k)| {
      Order();
      var r := Rank(ks, k);
      InsertShift(ks, r, k, i);
      if i < r {
        RankBelow(ks, k, i);
        assert ServedAt(t, k, i);
      } else if i > r {
        assert ServedAt(t, x, i - 1);
      }
    }
  }

  // ---------- A put that splits ----------

  /** The tree after a split: the left half stays, the right half is a new page, and exactly the keys of
      the span are sent there. */
  ghost predicate AfterSplit(t: Tree, k: Bytes, v: Bytes, t': Tree)
    requires Shaped(t) && Splits(t, k)
  {
    var o, q := LeafFor(t, k), Upserted(t, k, v);
    && Shaped(t') && o in t'.pages && t.nextFree in t'.pages
    && t'.pages[o] == LeftHalf(q) && t'.pages[t.nextFree] == RightHalf(q).(fileOffset := t.nextFree)
    && (forall x :: LeafFor(t', x) == if InSpan(t, k, x) then t.nextFree else LeafFor(t, x))
    && (forall p {:trigger t'.pages[p]} | p in t.pages && p != o && p != t.root :: p in t'.pages && t'.pages[p] == t.pages[p])
  }

  /** A page's file offset plays no part in its contents. */
  lemma MovedPage(p: Page, o: nat)
    requires LeafOK(p)
    ensures var q := p.(fileOffset := o); LeafOK(q) && Keys(q) == Keys(p) && forall x :: LeafGet(q, x) == LeafGet(p, x)
  {
    assert Keys(p.(fileOffset := o)) == Keys(p);
  }

  lemma HalvesShaped(t: Tree, k: Bytes, v: Bytes, n: nat)
    requires Shaped(t) && Splits(t, k) && |Target(t, k).leafCell| <= |Target(t, k).offsets| + 5 * n
    ensures var q := Upserted(t, k, v);
            LeafShape(LeftHalf(q), n + 1) && LeafShape(RightHalf(q).(fileOffset := t.nextFree), n + 1)
  {
    hide Less, FirstCell, Upsert, LeafFor, RightHalf, LeafGet;
    var q := Upserted(t, k, v);
    SplitLeaf(q);
    MovedPage(RightHalf(q), t.nextFree);
  }

  lemma SeparatorIsSplitKey(t: Tree, k: Bytes, v: Bytes)
    requires Shaped(t) && Splits(t, k)
    ensures var q := Upserted(t, k, v);
            SplitPoint(q) == MAX_LEAF_CELLS / 2 && Keys(q)[SplitPoint(q)] == SplitKey(t, k) && Keys(q)[SplitPoint(q)..] == MovedKeys(t, k)
  {}

  lemma ChildSplits(t: Tree, k: Bytes, v: Bytes)
    requires Shaped(t) && Splits(t, k) && !t.pages[t.root].isLeaf
    ensures Put(t, k, v).Panics? <==> |t.pages[t.root].offsets| == MAX_INTERNAL_CELLS
    ensures Put(t, k, v).Done? ==>
              && Put(t, k, v).tree == SplitPage(t, Some(t.root), LeafFor(t, k), Upserted(t, k, v))
              && AfterSplit(t, k, v, Put(t, k, v).tree)
  {
    hide Less, FirstCell, Upsert, RightHalf, AddChild, LeafGet, SplitPage, InsertionPoint, Upserted, Grown;
    var r, o, q := t.pages[t.root], LeafFor(t, k), Upserted(t, k, v);
    UpsertedIs(t, k, v);
    SplitPageUnfolds(t, Some(t.root), o, q);
    SeparatorIsSplitKey(t, k, v);
    AddChildFacts(r, t.nextFree, SplitKey(t, k));
    var t' := SplitPage(t, Some(t.root), o, q);
    assert t'.pages[t.root] == AddChild(r, t.nextFree, SplitKey(t, k));
    assert Put(t, k, v) == if |r.offsets| == MAX_INTERNAL_CELLS then Panics else Done(t');
    if |r.offsets| < MAX_INTERNAL_CELLS {
      ChildSplitShaped(t, k, v, t');
      ChildSplitRoutes(t, k, v, t');
    }
  }

  lemma UpsertedIs(t: Tree, k: Bytes, v: Bytes)
    requires Shaped(t)
    ensures var q := Upserted(t, k, v);
            && q == Upsert(t.pages[LeafFor(t, k)], k, v) && q.isLeaf && InRange(q)
            && (Splits(t, k) ==> IsFull(q) && |q.offsets| == MAX_LEAF_CELLS && FirstCell(t.pages[LeafFor(t, k)].leafCell, k).None?)
  {}

  /** What SplitPage gives under an internal root, field by field. */
  ghost predicate ChildSplit(t: Tree, k: Bytes, v: Bytes, t': Tree)
    requires Shaped(t) && Splits(t, k) && !t.pages[t.root].isLeaf
  {
    var o, q := LeafFor(t, k), Upserted(t, k, v);
    t' == Tree(t.pages[o := LeftHalf(q)][t.nextFree := RightHalf(q).(fileOffset := t.nextFree)]
                 [t.root := AddChild(t.pages[t.root], t.nextFree, SplitKey(t, k))],
               t.root, t.nextFree + PAGE_SIZE)
  }

  lemma ChildSplitGives(t: Tree, k: Bytes, v: Bytes)
    requires Shaped(t) && Splits(t, k) && !t.pages[t.root].isLeaf && Put(t, k, v).Done?
    ensures ChildSplit(t, k, v, Put(t, k, v).tree)
  {
    hide Less, FirstCell, RightHalf, AddChild, SplitPage, Put, LeafFor, Splits, SplitKey, Upserted;
    ChildSplits(t, k, v);
    UpsertedIs(t, k, v);
    SeparatorIsSplitKey(t, k, v);
    SplitPageUnfolds(t, Some(t.root), LeafFor(t, k), Upserted(t, k, v));
  }

  lemma ChildSplitShaped(t: Tree, k: Bytes, v: Bytes, t': Tree)
    requires Shaped(t) && Splits(t, k) && !t.pages[t.root].isLeaf && ChildSplit(t, k, v, t')
    requires |t.pages[t.root].offsets| < MAX_INTERNAL_CELLS
    ensures Shaped(t')
  {
    hide Less, FirstCell, RightHalf, AddChild, LeafGet, InsertionPoint, Grown, LeafOK, ChildCell, Splits;
    var r, o, q := t.pages[t.root], LeafFor(t, k), Upserted(t, k, v);
    AddChildFacts(r, t.nextFree, SplitKey(t, k));
    HalvesShaped(t, k, v, |r.offsets|);
    assert t'.pages[o].fileOffset == o;
    var r' := t'.pages[t.root];
    forall c {:trigger r'.internalCell[c]} | 0 <= c < |r'.internalCell|
      ensures r'.internalCell[c].fileOffset in t'.pages && r'.internalCell[c].fileOffset != t'.root
      ensures LeafShape(t'.pages[r'.internalCell[c].fileOffset], |r'.internalCell|)
    {
      if c < |r.internalCell| {
        assert r'.internalCell[c] == r.internalCell[c];
      }
    }
  }

  lemma ChildSplitRoutes(t: Tree, k: Bytes, v: Bytes, t': Tree)
    requires Shaped(t) && Splits(t, k) && !t.pages[t.root].isLeaf && ChildSplit(t, k, v, t') && Shaped(t')
    ensures forall x :: LeafFor(t', x) == if InSpan(t, k, x) then t.nextFree else LeafFor(t, x)
  {
    hide Less, FirstCell, RightHalf, AddChild, LeafGet, InsertionPoint, Grown, LeafOK, Splits, Reach, ChildCell;
    var r, sep := t.pages[t.root], SplitKey(t, k);
    AddChildFacts(r, t.nextFree, sep);
    forall x ensures LeafFor(t', x) == if InSpan(t, k, x) then t.nextFree else LeafFor(t, x) {
      AddChildRoutes(r, t.nextFree, sep, x);
      ChildCellInRange(r, x);
      assert t'.pages[t'.root].internalCell[|r.internalCell|].fileOffset == t.nextFree;
    }
  }

  lemma NewRootFacts(left: nat, leftKey: Bytes, right: nat, sep: Bytes, o: nat)
    requires Less(leftKey, sep)
    ensures var p := NewRoot(left, leftKey, right, sep).(fileOffset := o);
            && RootShape(p) && p.fileOffset == o && p.offsets == [0, 1] && Keys(p) == [leftKey, sep]
            && p.internalCell == [InternalCell(leftKey, left), InternalCell(sep, right)]
            && forall x :: ChildCell(p, x) == if Less(x, sep) then 0 else 1
  {
    var p := NewRoot(left, leftKey, right, sep).(fileOffset := o);
    assert p.offsets == [0, 1] && p.internalCell == [InternalCell(leftKey, left), InternalCell(sep, right)];
    assert Keys(p) == [leftKey, sep];
    Order();
    hide Less;
    forall x ensures ChildCell(p, x) == if Less(x, sep) then 0 else 1 {
      ReachUnique(Keys(p), x, if Less(x, leftKey) then 0 else if Less(x, sep) then 1 else 2);
    }
  }

  lemma RootSplits(t: Tree, k: Bytes, v: Bytes)
    requires Shaped(t) && Splits(t, k) && t.pages[t.root].isLeaf
    ensures Put(t, k, v).Done? && AfterSplit(t, k, v, Put(t, k, v).tree)
    ensures Put(t, k, v).tree == SplitPage(t, None, t.root, Upserted(t, k, v))
  {
    hide Less, FirstCell, Upsert, RightHalf, NewRoot, LeafGet, SplitPage, InsertionPoint, Upserted, Grown, LeafOK, ChildCell;
    var o, q := t.root, Upserted(t, k, v);
    UpsertedIs(t, k, v);
    SplitPageUnfolds(t, None, o, q);
    SeparatorIsSplitKey(t, k, v);
    HalvesShaped(t, k, v, 1);
    var t' := SplitPage(t, None, o, q);
    assert Put(t, k, v) == Done(t');
    assert Less(Keys(q)[0], Keys(q)[SplitPoint(q)]) by {
      LeafSorted(q);
    }
    NewRootFacts(o, Keys(q)[0], t.nextFree, SplitKey(t, k), t.nextFree + PAGE_SIZE);
    assert q.fileOffset == o;
  }

  lemma LeafSorted(q: Page)
    requires LeafFilled(q)
    ensures Sorted(Keys(q))
  {}

  // ---------- What a split does to the answers ----------

  /** A key of the span is answered by the new page: as before if it moved there, and not at all if it did
      not. Every other key is answered as before. */
  lemma SplitAnswers(t: Tree, k: Bytes, v: Bytes, t': Tree, x: Bytes)
    requires WellFormed(t) && Splits(t, k) && AfterSplit(t, k, v, t')
    ensures Get(t', x) == if InSpan(t, k, x) && x !in MovedKeys(t, k) then None
                          else if x == k then Some(v) else Get(t, x)
  {
    hide Less, FirstCell, Upsert, RightHalf, LeafGet, Grown, LeafOK, LeafFor, Shaped, Served, InSpan, Splits;
    var q := Upserted(t, k, v);
    SeparatorIsSplitKey(t, k, v);
    SplitLeaf(q);
    MovedPage(RightHalf(q), t.nextFree);
    if InSpan(t, k, x) {
      SpanRouted(t, k, x);
    }
  }

  lemma SplitServed(t: Tree, k: Bytes, v: Bytes, t': Tree, x: Bytes, i: nat)
    requires WellFormed(t) && Splits(t, k) && AfterSplit(t, k, v, t')
    ensures ServedAt(t', x, i)
  {
    hide Less, FirstCell, Upsert, RightHalf, LeafGet, LeafFor, Shaped, Splits, Grown;
    Order();
    var q, o := Upserted(t, k, v), LeafFor(t, k);
    var s := MAX_LEAF_CELLS / 2;
    GrownLength(t, k);
    SeparatorIsSplitKey(t, k, v);
    SplitLeaf(q);
    MovedPage(RightHalf(q), t.nextFree);
    if InSpan(t, k, x) {
      if i < MAX_LEAF_CELLS - s {
        assert !Less(Keys(q)[s + i], SplitKey(t, k));
        assert Keys(Target(t', x))[i] == Keys(q)[s + i];
      }
    } else if LeafFor(t, x) == o {
      if i < s {
        LowerHalfRouted(t, k, i);
        assert Less(Keys(q)[i], SplitKey(t, k));
      }
    } else {
      assert ServedAt(t, x, i);
      if i < |Keys(Target(t, x))| && InSpan(t, k, Keys(Target(t, x))[i]) {
        SpanRouted(t, k, Keys(Target(t, x))[i]);
      }
    }
  }

  // ---------- The theorems ----------

  lemma SplitsIff(t: Tree, k: Bytes)
    requires Shaped(t)
    ensures Splits(t, k) <==> Get(t, k).None? && |Target(t, k).offsets| == 8
  {
    hide LeafFor, FirstCell;
  }

  /** Whether the put panics can be told beforehand: it would give a root with 290 children one more, the key being
      new to a leaf with eight live cells. */
  lemma PutPanicsIff(t: Tree, k: Bytes, v: Bytes)
    requires Shaped(t)
    ensures Put(t, k, v).Panics? <==> !t.pages[t.root].isLeaf && |t.pages[t.root].offsets| == 290 && Splits(t, k)
    ensures Splits(t, k) <==> Get(t, k).None? && |Target(t, k).offsets| == 8
  {
    SplitsIff(t, k);
    hide Put, Splits, LeafFor;
    if !Splits(t, k) {
      PutStays(t, k, v);
    } else if t.pages[t.root].isLeaf {
      RootSplits(t, k, v);
    } else {
      ChildSplits(t, k, v);
    }
  }

  /** Every put that returns keeps the tree well formed, and this is what every key is answered by
      afterwards. */
  lemma PutAnswers(t: Tree, k: Bytes, v: Bytes)
    requires WellFormed(t) && Put(t, k, v).Done?
    ensures var t' := Put(t, k, v).tree;
            && WellFormed(t')
            && forall x :: Get(t', x) == if Splits(t, k) && InSpan(t, k, x) && x !in MovedKeys(t, k) then None
                                         else if x == k then Some(v) else Get(t, x)
  {
    hide Put, Splits, LeafFor, Less, InSpan, AfterSplit, MovedKeys, Shaped, LeafGet;
    var t' := Put(t, k, v).tree;
    if !Splits(t, k) {
      StayAnswers(t, k, v);
    } else {
      SplitDone(t, k, v);
      forall x, i: nat ensures ServedAt(t', x, i) {
        SplitServed(t, k, v, t', x, i);
      }
      forall x ensures Get(t', x) == if InSpan(t, k, x) && x !in MovedKeys(t, k) then None else if x == k then Some(v) else Get(t, x) {
        SplitAnswers(t, k, v, t', x);
      }
    }
  }

  lemma SplitDone(t: Tree, k: Bytes, v: Bytes)
    requires Shaped(t) && Splits(t, k) && Put(t, k, v).Done?
    ensures Shaped(Put(t, k, v).tree) && AfterSplit(t, k, v, Put(t, k, v).tree)
  {
    hide Put, Splits, LeafFor, Less, InSpan, MovedKeys, LeafGet;
    if t.pages[t.root].isLeaf {
      RootSplits(t, k, v);
    } else {
      ChildSplits(t, k, v);
    }
  }

  /** The put is a map update: its own key has the new value, every other key the old answer. */
  ghost predicate Refines(t: Tree, k: Bytes, v: Bytes, t': Tree)
    requires Shaped(t)
  {
    Shaped(t') && forall x :: Get(t', x) == if x == k then Some(v) else Get(t, x)
  }

  /** A put that returns is a map update exactly when it strands no cell; each key it strands is lost. */
  lemma PutRefinesIff(t: Tree, k: Bytes, v: Bytes)
    requires WellFormed(t) && Put(t, k, v).Done?
    ensures Refines(t, k, v, Put(t, k, v).tree) <==> !Strands(t, k)
  {
    hide Put, LeafFor, Less, Shaped;
    PutAnswers(t, k, v);
    var t', p := Put(t, k, v).tree, Target(t, k);
    if Strands(t, k) {
      var c :| 0 <= c < |p.leafCell| && InSpan(t, k, p.leafCell[c].key) && p.leafCell[c].key !in MovedKeys(t, k);
      StrandedIsLost(t, k, v, c);
    } else {
      forall x | Splits(t, k) && InSpan(t, k, x) && x !in MovedKeys(t, k) ensures x != k && Get(t, x).None? {
        UnstrandedIsAbsent(t, k, x);
      }
    }
  }

  /** The cell answered for its key before the put, and nothing does afterwards. */
  lemma StrandedIsLost(t: Tree, k: Bytes, v: Bytes, c: nat)
    requires WellFormed(t) && Put(t, k, v).Done? && Splits(t, k) && c < |Target(t, k).leafCell|
    requires InSpan(t, k, Target(t, k).leafCell[c].key) && Target(t, k).leafCell[c].key !in MovedKeys(t, k)
    ensures var x := Target(t, k).leafCell[c].key;
            && x != k && Get(t, x) == Some(Target(t, k).leafCell[c].val)
            && Shaped(Put(t, k, v).tree) && Get(Put(t, k, v).tree, x) == None
  {
    hide Put, LeafFor, Less, Shaped, InSpan, MovedKeys;
    PutAnswers(t, k, v);
    SpanRouted(t, k, Target(t, k).leafCell[c].key);
    FirstCellIs(Target(t, k).leafCell, c);
  }

  lemma UnstrandedIsAbsent(t: Tree, k: Bytes, x: Bytes)
    requires WellFormed(t) && Splits(t, k) && !Strands(t, k) && InSpan(t, k, x) && x !in MovedKeys(t, k)
    ensures x != k && Get(t, x).None?
  {
    hide LeafFor, Less, Shaped, Reach;
    SpanRouted(t, k, x);
    FirstCellKey(Target(t, k).leafCell, x);
    if x == k {
      KeyMoves(t, k);
    }
  }

  /** The new key itself moves if it is at or above the separator. */
  lemma KeyMoves(t: Tree, k: Bytes)
    requires WellFormed(t) && Splits(t, k) && InSpan(t, k, k)
    ensures k in MovedKeys(t, k)
  {
    hide LeafFor, Less, Shaped, FirstCell, Rank;
    Order();
    GrownLength(t, k);
    var g, r := Grown(t, k), Rank(Keys(Target(t, k)), k);
    UpsertLeaf(Target(t, k), k, []);
    assert Sorted(g) && g[r] == k;
    PlaceAtOrAfter(g, r, MAX_LEAF_CELLS / 2);
    assert MovedKeys(t, k)[r - MAX_LEAF_CELLS / 2] == k;
  }

  // ---------- Sequences of puts ----------

  ghost predicate PutGives(t: Tree, put: Pair, t': Tree) {
    Shaped(t) && Put(t, put.0, put.1) == Done(t')
  }

  /** Trees grown from the empty one by these puts, none of which panics. */
  ghost predicate IsHistory(puts: seq<Pair>, ts: seq<Tree>) {
    && |ts| == |puts| + 1
    && ts[0] == NEW_TREE
    && forall i {:trigger puts[i]} | 0 <= i < |puts| :: PutGives(ts[i], puts[i], ts[i + 1])
  }

  lemma {:induction false} HistoryWellFormed(puts: seq<Pair>, ts: seq<Tree>, i: nat)
    requires IsHistory(puts, ts) && i < |ts|
    ensures WellFormed(ts[i])
  {
    hide WellFormed, Put, Get, Splits, InSpan, MovedKeys;
    if i == 0 {
      NewTreeIsWellFormed();
    } else {
      HistoryWellFormed(puts, ts, i - 1);
      assert PutGives(ts[i - 1], puts[i - 1], ts[i]);
      PutAnswers(ts[i - 1], puts[i - 1].0, puts[i - 1].1);
    }
  }

  /** Get answers for every key the last value put, or not found. */
  ghost predicate IsMap(t: Tree, puts: seq<Pair>) {
    Shaped(t) && forall k :: Get(t, k) == LastPut(puts, k)
  }

  ghost predicate StrandsNothing(t: Tree, k: Bytes) {
    Shaped(t) && !Strands(t, k)
  }

  /** One more put: the tree stays a map exactly when the put strands nothing. */
  lemma MapStep(puts: seq<Pair>, ts: seq<Tree>, i: nat)
    requires IsHistory(puts, ts) && i < |puts| && IsMap(ts[i], puts[..i])
    ensures IsMap(ts[i + 1], puts[..i + 1]) <==> StrandsNothing(ts[i], puts[i].0)
  {
    hide Put, Get, Strands, Shaped;
    HistoryWellFormed(puts, ts, i);
    HistoryWellFormed(puts, ts, i + 1);
    assert PutGives(ts[i], puts[i], ts[i + 1]);
    PutRefinesIff(ts[i], puts[i].0, puts[i].1);
    forall k ensures LastPut(puts[..i + 1], k) == if k == puts[i].0 then Some(puts[i].1) else LastPut(puts[..i], k) {
      assert puts[..i + 1][..i] == puts[..i] && puts[..i + 1][i] == puts[i];
    }
  }

  lemma {:induction false} MapWhileNothingStranded(puts: seq<Pair>, ts: seq<Tree>, n: nat)
    requires IsHistory(puts, ts) && n < |ts|
    requires forall i {:trigger puts[i]} | 0 <= i < n :: StrandsNothing(ts[i], puts[i].0)
    ensures IsMap(ts[n], puts[..n])
  {
    hide IsMap, StrandsNothing, PutGives;
    if n == 0 {
      assert IsMap(NEW_TREE, []) by {
        NewTreeIsMap();
      }
    } else {
      MapWhileNothingStranded(puts, ts, n - 1);
      MapStep(puts, ts, n - 1);
    }
  }

  lemma NewTreeIsMap()
    ensures IsMap(NEW_TREE, [])
  {
    NewTreeIsWellFormed();
  }

  /** Over every sequence of puts: the tree is a plain map at every moment exactly when no put strands a
      cell. */
  lemma TreeIsMapIff(puts: seq<Pair>, ts: seq<Tree>)
    requires IsHistory(puts, ts)
    ensures (forall i {:trigger ts[i]} | 0 <= i < |ts| :: IsMap(ts[i], puts[..i]))
       <==> (forall i {:trigger puts[i]} | 0 <= i < |puts| :: StrandsNothing(ts[i], puts[i].0))
  {
    hide IsMap, StrandsNothing, PutGives;
    if forall i {:trigger puts[i]} | 0 <= i < |puts| :: StrandsNothing(ts[i], puts[i].0) {
      forall i {:trigger ts[i]} | 0 <= i < |ts| ensures IsMap(ts[i], puts[..i]) {
        MapWhileNothingStranded(puts, ts, i);
      }
    }
    if forall i {:trigger ts[i]} | 0 <= i < |ts| :: IsMap(ts[i], puts[..i]) {
      forall i {:trigger puts[i]} | 0 <= i < |puts| ensures StrandsNothing(ts[i], puts[i].0) {
        assert IsMap(ts[i], puts[..i]) && IsMap(ts[i + 1], puts[..i + 1]);
        MapStep(puts, ts, i);
      }
    }
  }

  /** While nothing is stranded the tree is the table that the puts make. */
  lemma TreeIsTable(puts: seq<Pair>, ts: seq<Tree>, n: nat, k: Bytes)
    requires IsHistory(puts, ts) && n < |ts|
    requires forall i {:trigger puts[i]} | 0 <= i < n :: StrandsNothing(ts[i], puts[i].0)
    ensures Shaped(ts[n]) && Get(ts[n], k) == Lookup(Fold(map[], puts[..n]), k)
  {
    hide StrandsNothing, PutGives, Get, Shaped;
    MapWhileNothingStranded(puts, ts, n);
    FoldLookup(map[], puts[..n], k);
  }
}
