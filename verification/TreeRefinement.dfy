/** The tree as its design has it: separators in strict order, every leaf between its two separators, stale
    cells out of reach. Puts keep it so exactly when they do not split the leftmost leaf at or below the
    leftmost separator, and from such a tree no put loses a key. */
module TreeRefinement {
  import opened Types
  import opened KeyOrder
  import opened Pages
  import opened LeafPages
  import opened Trees
  import opened TreeAnswers
  import opened Tables

  // ---------- The invariant ----------

  function Children(p: Page): seq<nat>
    requires !p.isLeaf && InRange(p)
  {
    seq(|p.offsets|, i requires 0 <= i < |p.offsets| => p.internalCell[p.offsets[i]].fileOffset)
  }

  function Bound(keys: seq<Bytes>, i: nat): Option<Bytes> {
    if i + 1 < |keys| then Some(keys[i + 1]) else None
  }

  function Lower(keys: seq<Bytes>, i: nat): Option<Bytes> {
    if 0 < i < |keys| then Some(keys[i]) else None
  }

  predicate AtLeast(k: Bytes, lo: Option<Bytes>) {
    lo.Some? ==> !Less(k, lo.value)
  }

  /** A leaf that answers for the keys from lo up to hi. */
  ghost predicate ChildOK(p: Page, lo: Option<Bytes>, hi: Option<Bytes>) {
    && LeafOK(p) && StaleAbove(p, hi)
    && forall i {:trigger p.offsets[i]} | 0 <= i < |p.offsets| :: AtLeast(p.leafCell[p.offsets[i]].key, lo)
  }

  /** The first child has no lower bound: keys below every separator are its own. */
  ghost predicate ChildrenOK(t: Tree, ks: seq<Bytes>, cs: seq<nat>) {
    && |cs| == |ks|
    && (forall i {:trigger cs[i]} | 0 <= i < |cs| ::
          cs[i] in t.pages && cs[i] != t.root && ChildOK(t.pages[cs[i]], Lower(ks, i), Bound(ks, i)))
    && (forall i, j {:trigger cs[i], cs[j]} | 0 <= i < j < |cs| :: cs[i] != cs[j])
  }

  ghost predicate InOrder(t: Tree)
    requires Shaped(t)
  {
    var r := t.pages[t.root];
    if r.isLeaf then StaleAbove(r, None)
    else Sorted(Keys(r)) && r.offsets[0] == 0 && ChildrenOK(t, Keys(r), Children(r))
  }

  ghost predicate Valid(t: Tree) {
    WellFormed(t) && InOrder(t)
  }

  /** The put would split the leftmost leaf at or below the leftmost separator. The right half would go
      in front of the page it was split from, and findChildPage would keep sending keys above it to
      cell 0, the left half. */
  predicate Misplaces(t: Tree, k: Bytes)
    requires Shaped(t)
  {
    var r := t.pages[t.root];
    && !r.isLeaf && Splits(t, k)
    && Reach(Keys(r), k) <= 1
    && !Less(Keys(r)[0], SplitKey(t, k))
  }

  // ---------- Routing in order ----------

  /** The place of the child that k belongs to; a key below every separator falls to the first. */
  function Place(keys: seq<Bytes>, k: Bytes): (r: nat)
    requires |keys| > 0
    ensures r < |keys|
  {
    var r := Reach(keys, k);
    if r == 0 then 0 else r - 1
  }

  lemma PlaceFacts(keys: seq<Bytes>, k: Bytes)
    requires Sorted(keys) && |keys| > 0
    ensures Below(k, Bound(keys, Place(keys, k))) && AtLeast(k, Lower(keys, Place(keys, k)))
  {
    hide Less;
    var r := Reach(keys, k);
    if r > 0 {
      assert !Less(k, keys[r - 1]);
    } else if 1 < |keys| {
      Order();
      assert Less(keys[0], keys[1]);
    }
  }

  /** The leaf k is routed to, with the bounds it answers for. */
  lemma RoutedChild(t: Tree, k: Bytes)
    requires Valid(t) && !t.pages[t.root].isLeaf
    ensures var r := t.pages[t.root];
            var j := Place(Keys(r), k);
            && LeafFor(t, k) == Children(r)[j]
            && ChildOK(Target(t, k), Lower(Keys(r), j), Bound(Keys(r), j))
            && Below(k, Bound(Keys(r), j)) && AtLeast(k, Lower(Keys(r), j))
  {
    hide Less, LeafOK;
    var r := t.pages[t.root];
    PlaceFacts(Keys(r), k);
    var j := Place(Keys(r), k);
    assert LeafFor(t, k) == Children(r)[j];
  }

  lemma UpsertedChild(t: Tree, k: Bytes, v: Bytes, lo: Option<Bytes>, hi: Option<Bytes>)
    requires Shaped(t) && ChildOK(Target(t, k), lo, hi) && AtLeast(k, lo) && Below(k, hi)
    ensures var q := Upserted(t, k, v);
            && StaleAbove(q, hi)
            && forall i {:trigger Keys(q)[i]} | 0 <= i < |Keys(q)| :: AtLeast(Keys(q)[i], lo)
  {
    hide Less, LeafFor, FirstCell, Rank;
    var p, q := Target(t, k), Upserted(t, k, v);
    UpsertStale(p, hi, k, v);
    forall i {:trigger Keys(q)[i]} | 0 <= i < |Keys(q)| ensures AtLeast(Keys(q)[i], lo) {
      var r := Rank(Keys(p), k);
      if Keys(q) != Keys(p) {
        InsertShift(Keys(p), r, k, i);
      }
      assert forall j {:trigger Keys(p)[j]} | 0 <= j < |Keys(p)| :: AtLeast(p.leafCell[p.offsets[j]].key, lo);
    }
  }

  // ---------- Puts that stay ----------

  lemma StayInOrder(t: Tree, k: Bytes, v: Bytes)
    requires Valid(t) && !Splits(t, k)
    ensures Put(t, k, v).Done? && Shaped(Put(t, k, v).tree) && InOrder(Put(t, k, v).tree)
  {
    hide Less, FirstCell, Reach, Place, LeafOK, StaleAbove, Put, Served, LeafFor;
    PutStays(t, k, v);
    StayRoutes(t, k, v);
    var r, o, t' := t.pages[t.root], LeafFor(t, k), Put(t, k, v).tree;
    if r.isLeaf {
      RootUpsertStale(t, k, v);
    } else {
      RoutedChild(t, k);
      var ks, cs := Keys(r), Children(r);
      var j := Place(ks, k);
      UpsertedChild(t, k, v, Lower(ks, j), Bound(ks, j));
      UpsertedOK(t, k, v, Lower(ks, j), Bound(ks, j));
      assert t'.pages[t.root] == r;
      forall i {:trigger cs[i]} | 0 <= i < |cs| ensures ChildOK(t'.pages[cs[i]], Lower(ks, i), Bound(ks, i)) {
        if i < j {
          assert cs[i] != cs[j];
        } else if j < i {
          assert cs[j] != cs[i];
        }
      }
    }
  }

  lemma RootUpsertStale(t: Tree, k: Bytes, v: Bytes)
    requires Valid(t) && t.pages[t.root].isLeaf
    ensures StaleAbove(Upserted(t, k, v), None)
  {
    UpsertStale(Target(t, k), None, k, v);
  }

  lemma UpsertedOK(t: Tree, k: Bytes, v: Bytes, lo: Option<Bytes>, hi: Option<Bytes>)
    requires Shaped(t) && !Splits(t, k) && StaleAbove(Upserted(t, k, v), hi)
    requires var q := Upserted(t, k, v); forall i {:trigger Keys(q)[i]} | 0 <= i < |Keys(q)| :: AtLeast(Keys(q)[i], lo)
    ensures ChildOK(Upserted(t, k, v), lo, hi)
  {
    hide Less, LeafFor, FirstCell, Grown;
    var q := Upserted(t, k, v);
    assert forall i {:trigger q.offsets[i]} | 0 <= i < |q.offsets| :: q.leafCell[q.offsets[i]].key == Keys(q)[i];
  }

  // ---------- Puts that split ----------

  lemma HalvesAreChildren(q: Page, lo: Option<Bytes>, hi: Option<Bytes>, o: nat)
    requires LeafFilled(q) && |q.offsets| == MAX_LEAF_CELLS && StaleAbove(q, hi)
    requires forall i {:trigger Keys(q)[i]} | 0 <= i < |Keys(q)| :: AtLeast(Keys(q)[i], lo)
    ensures var sep := Keys(q)[SplitPoint(q)];
            && ChildOK(LeftHalf(q), lo, Some(sep))
            && ChildOK(RightHalf(q).(fileOffset := o), Some(sep), hi)
            && (lo.Some? ==> Less(lo.value, sep)) && Below(sep, hi)
  {
    hide Less, RightHalf, FirstCell;
    Order();
    SplitLeaf(q);
    SplitStale(q, hi);
    var l, r, s := LeftHalf(q), RightHalf(q), SplitPoint(q);
    var sep := Keys(q)[s];
    assert Less(Keys(q)[0], sep);
    forall i {:trigger l.offsets[i]} | 0 <= i < |l.offsets| ensures AtLeast(l.leafCell[l.offsets[i]].key, lo) {
      assert l.leafCell[l.offsets[i]].key == Keys(q)[i];
    }
    forall i {:trigger r.offsets[i]} | 0 <= i < |r.offsets| ensures !Less(r.leafCell[r.offsets[i]].key, sep) {
      assert Keys(r)[i] == Keys(q)[s + i];
    }
    assert q.leafCell[q.offsets[s]].key == sep;
    MovedChild(r, o, Some(sep), hi);
  }

  lemma MovedChild(p: Page, o: nat, lo: Option<Bytes>, hi: Option<Bytes>)
    requires ChildOK(p, lo, hi)
    ensures ChildOK(p.(fileOffset := o), lo, hi)
  {
    hide Less;
    var q := p.(fileOffset := o);
    assert Keys(q) == Keys(p);
    assert forall c {:trigger Live(q, c)} :: Live(q, c) == Live(p, c);
  }

  lemma RootSplitInOrder(t: Tree, k: Bytes, v: Bytes)
    requires Valid(t) && Splits(t, k) && t.pages[t.root].isLeaf
    ensures Put(t, k, v).Done? && Shaped(Put(t, k, v).tree) && InOrder(Put(t, k, v).tree)
    ensures var t' := Put(t, k, v).tree;
            !t'.pages[t'.root].isLeaf && Keys(t'.pages[t'.root])[0] == Grown(t, k)[0]
  {
    hide Less, FirstCell, RightHalf, NewRoot, SplitPage, Put, Served, LeafFor, ChildOK, Upserted, LeafOK, Splits, Grown;
    var q, o := Upserted(t, k, v), t.nextFree;
    RootSplits(t, k, v);
    RootHalves(t, k, v);
    UpsertedIs(t, k, v);
    SplitPageUnfolds(t, None, t.root, q);
    var lo, sep := Keys(q)[0], Keys(q)[SplitPoint(q)];
    NewRootFacts(t.root, lo, o, sep, o + PAGE_SIZE);
    var t' := Put(t, k, v).tree;
    assert Children(t'.pages[t'.root]) == [t.root, o];
  }

  lemma RootHalves(t: Tree, k: Bytes, v: Bytes)
    requires Valid(t) && Splits(t, k) && t.pages[t.root].isLeaf
    ensures var q := Upserted(t, k, v);
            var sep := Keys(q)[SplitPoint(q)];
            && ChildOK(LeftHalf(q), None, Some(sep)) && ChildOK(RightHalf(q).(fileOffset := t.nextFree), Some(sep), None)
            && Less(Keys(q)[0], sep) && Keys(q) == Grown(t, k) && q.fileOffset == t.root
  {
    hide Less, FirstCell, RightHalf, Served, ChildOK;
    RootUpsertStale(t, k, v);
    HalvesAreChildren(Upserted(t, k, v), None, None, t.nextFree);
  }

  /** A separator between two neighbours goes between them. */
  lemma SeparatorPlace(ks: seq<Bytes>, j: nat, sep: Bytes)
    requires Sorted(ks) && j < |ks| && Less(ks[j], sep) && Below(sep, Bound(ks, j))
    ensures InsertionPoint(ks, sep) == j + 1 && Sorted(ks[..j + 1] + [sep] + ks[j + 1..])
  {
    hide Less, Rank, InsertionPoint;
    Order();
    forall i {:trigger ks[i]} | 0 <= i <= j ensures Less(ks[i], sep) {
      assert i < j ==> Less(ks[i], ks[j]);
    }
    forall i {:trigger ks[i]} | j < i < |ks| ensures Less(sep, ks[i]) {
      assert Less(sep, ks[j + 1]) && (j + 1 < i ==> Less(ks[j + 1], ks[i]));
    }
    RankUnique(ks, sep, j + 1);
    InsertionPointIsRank(ks, sep);
    InsertSorted(ks, sep);
  }

  lemma ChildrenOfAdd(r: Page, p: Page, i: nat, cell: InternalCell)
    requires !r.isLeaf && !p.isLeaf && InRange(r) && InRange(p) && i <= |r.offsets|
    requires p.offsets == r.offsets[..i] + [|r.internalCell|] + r.offsets[i..] && p.internalCell == r.internalCell + [cell]
    ensures Children(p) == Children(r)[..i] + [cell.fileOffset] + Children(r)[i..]
  {
    forall j | 0 <= j < |p.offsets| ensures Children(p)[j] == (Children(r)[..i] + [cell.fileOffset] + Children(r)[i..])[j] {
      InsertShift(r.offsets, i, |r.internalCell|, j);
      InsertShift(Children(r), i, cell.fileOffset, j);
    }
  }

  /** The children after a split, each with its bounds. */
  lemma SplitChildren(t: Tree, t': Tree, ks: seq<Bytes>, cs: seq<nat>, j: nat, sep: Bytes, o: nat)
    requires Sorted(ks) && ChildrenOK(t, ks, cs) && j < |ks| && o !in t.pages && o != t'.root && t'.root == t.root
    requires forall x | x in t.pages && x != cs[j] && x != t.root :: x in t'.pages && t'.pages[x] == t.pages[x]
    requires cs[j] in t'.pages && ChildOK(t'.pages[cs[j]], Lower(ks, j), Some(sep))
    requires o in t'.pages && ChildOK(t'.pages[o], Some(sep), Bound(ks, j))
    ensures ChildrenOK(t', ks[..j + 1] + [sep] + ks[j + 1..], cs[..j + 1] + [o] + cs[j + 1..])
  {
    hide Less, ChildOK;
    var ks' := ks[..j + 1] + [sep] + ks[j + 1..];
    var cs' := cs[..j + 1] + [o] + cs[j + 1..];
    forall i {:trigger cs'[i]} | 0 <= i < |cs'|
      ensures cs'[i] in t'.pages && cs'[i] != t'.root && ChildOK(t'.pages[cs'[i]], Lower(ks', i), Bound(ks', i))
    {
      var i0 := if i <= j then i else i - 1;
      InsertShift(cs, j + 1, o, i);
      InsertShift(ks, j + 1, sep, i);
      if i + 1 < |ks'| {
        InsertShift(ks, j + 1, sep, i + 1);
      }
      if i != j && i != j + 1 {
        assert cs[i0] != cs[j];
        assert Bound(ks', i) == Bound(ks, i0) && Lower(ks', i) == Lower(ks, i0);
      }
    }
    forall i, i2 {:trigger cs'[i], cs'[i2]} | 0 <= i < i2 < |cs'| ensures cs'[i] != cs'[i2] {
      InsertShift(cs, j + 1, o, i);
      InsertShift(cs, j + 1, o, i2);
    }
  }

  /** The leaf that splits, the separator it splits at, and its halves between their bounds. */
  lemma SplitBounds(t: Tree, k: Bytes, v: Bytes)
    requires Valid(t) && !t.pages[t.root].isLeaf && Splits(t, k)
    ensures var ks := Keys(t.pages[t.root]);
            var j, q := Place(ks, k), Upserted(t, k, v);
            && LeafFor(t, k) == Children(t.pages[t.root])[j]
            && ChildOK(LeftHalf(q), Lower(ks, j), Some(SplitKey(t, k)))
            && ChildOK(RightHalf(q).(fileOffset := t.nextFree), Some(SplitKey(t, k)), Bound(ks, j))
            && Below(SplitKey(t, k), Bound(ks, j)) && (j > 0 ==> Less(ks[j], SplitKey(t, k)))
  {
    hide Less, FirstCell, Reach, Place, LeafOK, StaleAbove, LeafFor, Served, ChildOK, RightHalf;
    RoutedChild(t, k);
    var ks := Keys(t.pages[t.root]);
    var j, q := Place(ks, k), Upserted(t, k, v);
    UpsertedChild(t, k, v, Lower(ks, j), Bound(ks, j));
    SeparatorIsSplitKey(t, k, v);
    HalvesAreChildren(q, Lower(ks, j), Bound(ks, j), t.nextFree);
  }

  /** The root after a split that misplaces nothing: the separator and the new child come right after the
      child that was split. */
  lemma SplitRootInOrder(t: Tree, k: Bytes)
    requires Valid(t) && !t.pages[t.root].isLeaf && Splits(t, k) && !Misplaces(t, k)
    ensures var r := t.pages[t.root];
            var ks, cs, sep := Keys(r), Children(r), SplitKey(t, k);
            var j, r' := Place(ks, k), AddChild(r, t.nextFree, sep);
            && !r'.isLeaf && InRange(r') && Sorted(Keys(r')) && r'.offsets[0] == 0
            && Keys(r') == ks[..j + 1] + [sep] + ks[j + 1..] && Children(r') == cs[..j + 1] + [t.nextFree] + cs[j + 1..]
  {
    hide Less, FirstCell, Reach, LeafOK, AddChild, Served, LeafFor, ChildOK, InsertionPoint, Splits, SplitKey, Upserted;
    var r, sep := t.pages[t.root], SplitKey(t, k);
    var ks := Keys(r);
    var j := Place(ks, k);
    SplitBounds(t, k, []);
    AddChildFacts(r, t.nextFree, sep);
    SeparatorPlace(ks, j, sep);
    ChildrenOfAdd(r, AddChild(r, t.nextFree, sep), j + 1, InternalCell(sep, t.nextFree));
  }

  lemma ChildSplitInOrder(t: Tree, k: Bytes, v: Bytes)
    requires Valid(t) && !t.pages[t.root].isLeaf && Splits(t, k) && !Misplaces(t, k) && Put(t, k, v).Done?
    ensures Shaped(Put(t, k, v).tree) && InOrder(Put(t, k, v).tree)
    ensures SameFloor(t, Put(t, k, v).tree)
  {
    hide Less, FirstCell, Reach, LeafOK, StaleAbove, RightHalf, AddChild, SplitPage, Put, Served, LeafFor, ChildOK,
         InsertionPoint, Splits, SplitKey, Upserted, Misplaces, ChildrenShaped, Place, InSpan, WeaklySorted;
    var r, t' := t.pages[t.root], Put(t, k, v).tree;
    SplitBounds(t, k, v);
    SplitRootInOrder(t, k);
    ChildSplits(t, k, v);
    ChildSplitGives(t, k, v);
    SplitChildren(t, t', Keys(r), Children(r), Place(Keys(r), k), SplitKey(t, k), t.nextFree);
  }

  ghost predicate SameFloor(t: Tree, t': Tree)
    requires Shaped(t) && Shaped(t') && !t.pages[t.root].isLeaf
  {
    !t'.pages[t'.root].isLeaf && Keys(t'.pages[t'.root])[0] == Keys(t.pages[t.root])[0]
  }

  /** A misplaced page leaves the leftmost entry of the root pointing past cell 0. */
  lemma MisplacedIsOutOfOrder(t: Tree, k: Bytes, v: Bytes)
    requires Valid(t) && Misplaces(t, k) && Put(t, k, v).Done?
    ensures Shaped(Put(t, k, v).tree) && !InOrder(Put(t, k, v).tree)
  {
    hide Less, FirstCell, Reach, LeafOK, RightHalf, AddChild, SplitPage, Put, Served, LeafFor, Upserted, Splits, SplitKey;
    var r, sep, t' := t.pages[t.root], SplitKey(t, k), Put(t, k, v).tree;
    ChildSplits(t, k, v);
    UpsertedIs(t, k, v);
    SeparatorIsSplitKey(t, k, v);
    SplitPageUnfolds(t, Some(t.root), LeafFor(t, k), Upserted(t, k, v));
    AddChildFacts(r, t.nextFree, sep);
    InsertionPointIsRank(Keys(r), sep);
    assert Rank(Keys(r), sep) == 0;
  }

  // ---------- The theorems ----------

  /** A put that returns keeps the invariant exactly when it misplaces no page. */
  lemma PutKeepsValidIff(t: Tree, k: Bytes, v: Bytes)
    requires Valid(t) && Put(t, k, v).Done?
    ensures Valid(Put(t, k, v).tree) <==> !Misplaces(t, k)
  {
    hide Put, Splits, LeafFor, InOrder, Served, InSpan, MovedKeys;
    PutAnswers(t, k, v);
    if Misplaces(t, k) {
      MisplacedIsOutOfOrder(t, k, v);
    } else if !Splits(t, k) {
      StayInOrder(t, k, v);
    } else if t.pages[t.root].isLeaf {
      RootSplitInOrder(t, k, v);
    } else {
      ChildSplitInOrder(t, k, v);
    }
  }

  /** From a tree in order no put strands a cell: every stale cell of a leaf lies beyond its upper bound,
      and the new separator is put in front of that bound or of a lower one. */
  lemma ValidStrandsNothing(t: Tree, k: Bytes)
    requires Valid(t)
    ensures !Strands(t, k)
  {
    hide Less, Reach, LeafFor, Served;
    if Splits(t, k) {
      var p := Target(t, k);
      forall c | 0 <= c < |p.leafCell| && InSpan(t, k, p.leafCell[c].key) ensures p.leafCell[c].key in MovedKeys(t, k) {
        ValidCellMoves(t, k, c);
      }
    }
  }

  lemma ValidCellMoves(t: Tree, k: Bytes, c: nat)
    requires Valid(t) && Splits(t, k) && c < |Target(t, k).leafCell| && InSpan(t, k, Target(t, k).leafCell[c].key)
    ensures Target(t, k).leafCell[c].key in MovedKeys(t, k)
  {
    hide Less, Reach, LeafFor, Served, FirstCell, Shaped, Upsert;
    Order();
    var p, q := Target(t, k), Upserted(t, k, []);
    var x := p.leafCell[c].key;
    SpanBelowBound(t, k, x);
    FirstCellIs(p.leafCell, c);
    assert Live(p, c);
    var i :| 0 <= i < |p.offsets| && p.offsets[i] == c;
    assert Keys(p)[i] == x;
    GrownLength(t, k);
    var r := Rank(Keys(p), k);
    var i' := if i < r then i else i + 1;
    InsertShift(Keys(p), r, k, i');
    PlaceAtOrAfter(Keys(q), i', MAX_LEAF_CELLS / 2);
    assert MovedKeys(t, k)[i' - MAX_LEAF_CELLS / 2] == x;
  }

  /** The span stays below the bound beyond which the leaf's stale cells lie. */
  lemma SpanBelowBound(t: Tree, k: Bytes, x: Bytes)
    requires Valid(t) && Splits(t, k) && InSpan(t, k, x)
    ensures forall c {:trigger Target(t, k).leafCell[c]} | 0 <= c < |Target(t, k).leafCell| && Target(t, k).leafCell[c].key == x :: Live(Target(t, k), c)
  {
    hide Less, Reach, Served, FirstCell, Upsert, Place, InsertionPoint, LeafGet;
    var r, p := t.pages[t.root], Target(t, k);
    if !r.isLeaf {
      SpanRouted(t, k, x);
      RoutedChild(t, k);
      RoutedChild(t, x);
      SameChild(t, k, x);
    }
  }

  lemma SameChild(t: Tree, k: Bytes, x: Bytes)
    requires Valid(t) && !t.pages[t.root].isLeaf && LeafFor(t, x) == LeafFor(t, k)
    ensures Place(Keys(t.pages[t.root]), x) == Place(Keys(t.pages[t.root]), k)
  {
    hide Less, Reach, Served, Place, LeafFor, ChildOK;
    RoutedChild(t, k);
    RoutedChild(t, x);
    var ks, cs := Keys(t.pages[t.root]), Children(t.pages[t.root]);
    var i, j := Place(ks, x), Place(ks, k);
    assert cs[i] == cs[j];
  }

  /** So one put from a tree in order is always a map update, misplacing or not. */
  lemma ValidPutRefines(t: Tree, k: Bytes, v: Bytes)
    requires Valid(t) && Put(t, k, v).Done?
    ensures Refines(t, k, v, Put(t, k, v).tree)
  {
    hide Put, Strands, Refines, InOrder;
    ValidStrandsNothing(t, k);
    PutRefinesIff(t, k, v);
  }

  /** What Get returns from a tree in order is the value of a live cell with that key, never of a stale one. */
  lemma GetReturnsLiveCell(t: Tree, k: Bytes)
    requires Valid(t)
    ensures Get(t, k).Some? ==>
              exists i :: 0 <= i < |Target(t, k).offsets|
                && Target(t, k).leafCell[Target(t, k).offsets[i]].key == k
                && Get(t, k) == Some(Target(t, k).leafCell[Target(t, k).offsets[i]].val)
  {
    hide Less, Reach, Place, LeafFor;
    var p, r := Target(t, k), t.pages[t.root];
    if r.isLeaf {
      LookupIsLive(p, None, k);
    } else {
      RoutedChild(t, k);
      LookupIsLive(p, Bound(Keys(r), Place(Keys(r), k)), k);
    }
  }

  // ---------- Keys that stay above the leftmost separator ----------

  /** Once the root is internal, no key below the leftmost separator. */
  predicate InRegime(t: Tree, k: Bytes)
    requires Shaped(t)
  {
    t.pages[t.root].isLeaf || !Less(k, Keys(t.pages[t.root])[0])
  }

  /** No key below the leftmost separator is in the tree. */
  ghost predicate FloorHolds(t: Tree)
    requires Shaped(t)
  {
    !t.pages[t.root].isLeaf ==> forall x | Less(x, Keys(t.pages[t.root])[0]) :: Get(t, x) == None
  }

  /** A live key of the first child that is below every separator is found there. */
  lemma LowKeyFound(t: Tree, k: Bytes, i: nat)
    requires Valid(t) && !t.pages[t.root].isLeaf && Reach(Keys(t.pages[t.root]), k) <= 1
    requires i < |Target(t, k).offsets| && Less(Keys(Target(t, k))[i], Keys(t.pages[t.root])[0])
    ensures Get(t, Keys(Target(t, k))[i]).Some?
  {
    hide Less, Reach, Served, FirstCell, LeafGet, ChildrenOK, ChildrenShaped, Sorted;
    var ks, p := Keys(t.pages[t.root]), Target(t, k);
    var x := Keys(p)[i];
    ReachUnique(ks, x, 0);
    LookupFindsLive(p, i);
    LowKeysTogether(t, k, x);
  }

  lemma LowKeysTogether(t: Tree, k: Bytes, x: Bytes)
    requires Shaped(t) && !t.pages[t.root].isLeaf && t.pages[t.root].offsets[0] == 0
    requires Reach(Keys(t.pages[t.root]), k) <= 1 && Reach(Keys(t.pages[t.root]), x) == 0
    ensures LeafFor(t, x) == LeafFor(t, k)
  {
    hide Less, Reach;
  }

  /** While every key put is at or above the leftmost separator, no put misplaces a page. */
  lemma RegimeNeverMisplaces(t: Tree, k: Bytes)
    requires Valid(t) && FloorHolds(t) && InRegime(t, k)
    ensures !Misplaces(t, k)
  {
    hide Less, Reach, FirstCell, LeafFor, Served, Rank;
    if Misplaces(t, k) {
      var p, floor := Target(t, k), Keys(t.pages[t.root])[0];
      forall i | 0 <= i < |Keys(p)| ensures !Less(Keys(p)[i], floor) {
        if Less(Keys(p)[i], floor) {
          LowKeyFound(t, k, i);
        }
      }
      LiveKeyHasCell(p, k);
      AboveFloor(Keys(p), k, floor);
    }
  }

  lemma AboveFloor(keys: seq<Bytes>, k: Bytes, floor: Bytes)
    requires Sorted(keys) && k !in keys && !Less(k, floor) && |keys| + 1 == MAX_LEAF_CELLS
    requires forall i | 0 <= i < |keys| :: !Less(keys[i], floor)
    ensures var i := Rank(keys, k); Less(floor, (keys[..i] + [k] + keys[i..])[MAX_LEAF_CELLS / 2])
  {
    hide Less, Rank;
    Order();
    InsertSorted(keys, k);
    var r := Rank(keys, k);
    var grown := keys[..r] + [k] + keys[r..];
    InsertShift(keys, r, k, 0);
    assert Less(grown[0], grown[MAX_LEAF_CELLS / 2]) && !Less(grown[0], floor);
  }

  lemma RootSplitFloor(t: Tree, k: Bytes, v: Bytes)
    requires Valid(t) && Splits(t, k) && t.pages[t.root].isLeaf
    ensures Put(t, k, v).Done? && Shaped(Put(t, k, v).tree) && FloorHolds(Put(t, k, v).tree)
  {
    hide Less, Put, LeafGet, Served, Upserted;
    RootSplitInOrder(t, k, v);
    PutAnswers(t, k, v);
    var q := Upserted(t, k, v);
    RootUpsertStale(t, k, v);
    forall x ensures Less(x, Grown(t, k)[0]) ==> x != k && Get(t, x).None? {
      NothingBelowFirst(q, x);
    }
  }

  lemma NothingBelowFirst(q: Page, x: Bytes)
    requires LeafFilled(q) && |q.offsets| > 0 && StaleAbove(q, None)
    ensures Less(x, Keys(q)[0]) ==> LeafGet(q, x).None?
  {
    hide Less;
    Order();
    if LeafGet(q, x).Some? {
      LookupIsLive(q, None, x);
      var i :| 0 <= i < |q.offsets| && q.offsets[i] == FirstCell(q.leafCell, x).value;
      assert Keys(q)[i] == x && (i > 0 ==> Less(Keys(q)[0], Keys(q)[i]));
    }
  }

  lemma RegimeKeepsFloor(t: Tree, k: Bytes, v: Bytes)
    requires Valid(t) && FloorHolds(t) && InRegime(t, k) && Put(t, k, v).Done?
    ensures Valid(Put(t, k, v).tree) && FloorHolds(Put(t, k, v).tree)
  {
    hide Less, Put, Splits, Served, LeafFor, InOrder, LeafGet, Strands;
    RegimeNeverMisplaces(t, k);
    PutKeepsValidIff(t, k, v);
    ValidPutRefines(t, k, v);
    if Splits(t, k) {
      if t.pages[t.root].isLeaf {
        RootSplitFloor(t, k, v);
      } else {
        ChildSplitInOrder(t, k, v);
      }
    } else {
      PutStays(t, k, v);
    }
  }

  ghost predicate PutInRegime(t: Tree, k: Bytes) {
    Shaped(t) && InRegime(t, k)
  }

  lemma {:induction false} RegimeFloor(puts: seq<Pair>, ts: seq<Tree>, i: nat)
    requires IsHistory(puts, ts) && i < |ts|
    requires forall j {:trigger puts[j]} | 0 <= j < |puts| :: PutInRegime(ts[j], puts[j].0)
    ensures Valid(ts[i]) && FloorHolds(ts[i])
  {
    hide Valid, Get, Put, Less, FloorHolds, Shaped;
    if i == 0 {
      NewTreeIsValid();
    } else {
      RegimeFloor(puts, ts, i - 1);
      assert PutInRegime(ts[i - 1], puts[i - 1].0) && PutGives(ts[i - 1], puts[i - 1], ts[i]);
      RegimeKeepsFloor(ts[i - 1], puts[i - 1].0, puts[i - 1].1);
    }
  }

  lemma NewTreeIsValid()
    ensures Valid(NEW_TREE) && FloorHolds(NEW_TREE)
  {
    NewTreeIsWellFormed();
  }

  /** Puts that stay at or above the leftmost separator once the root is internal grow a plain map. */
  lemma TreeIsMapInRegime(puts: seq<Pair>, ts: seq<Tree>, i: nat)
    requires IsHistory(puts, ts) && i < |ts|
    requires forall j {:trigger puts[j]} | 0 <= j < |puts| :: PutInRegime(ts[j], puts[j].0)
    ensures Valid(ts[i]) && IsMap(ts[i], puts[..i])
  {
    hide Valid, IsMap, PutInRegime, PutGives, Strands;
    RegimeFloor(puts, ts, i);
    forall j {:trigger puts[j]} | 0 <= j < i ensures StrandsNothing(ts[j], puts[j].0) {
      RegimeFloor(puts, ts, j);
      ValidStrandsNothing(ts[j], puts[j].0);
      HistoryWellFormed(puts, ts, j);
    }
    MapWhileNothingStranded(puts, ts, i);
  }
}
