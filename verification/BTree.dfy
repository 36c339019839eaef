/** The mutable pages and tree of node.go and btree.go, proved against the values in Pages and Trees. */
module BTrees {
  import opened Types
  import opened KeyOrder
  import P = Pages
  import opened Pages
  import T = Trees
  import opened Trees
  import opened TreeAnswers

  /** A Go slice of offsets: a backing array and the length in use. */
  datatype Slice = Slice(buf: seq<nat>, len: nat) {
    predicate Valid() { len <= |buf| }

    function View(): seq<nat>
      requires Valid()
    {
      buf[..len]
    }

    /** s[:hi]; Go panics beyond the capacity. */
    function Reslice(hi: nat): Slice
      requires Valid() && hi <= |buf|
    {
      Slice(buf, hi)
    }

    /** append(s, xs...): in place while the capacity lasts, else into a grown copy. */
    function Append(xs: seq<nat>): (r: Slice)
      requires Valid()
      ensures r.Valid() && r.View() == View() + xs && |r.buf| == Grow(|buf|, len + |xs|)
    {
      var n := len + |xs|;
      if n <= |buf| then Slice(buf[..len] + xs + buf[n..], n)
      else Slice(buf[..len] + xs + seq(Grow(|buf|, n) - n, _ => 0), n)
    }

    /** append(s[:i+1], s[i:]...): a gap at i, everything from there on moved up by one. */
    function OpenAt(i: nat): (r: Slice)
      requires Valid() && i <= len && i + 1 <= |buf|
      ensures r.Valid() && r.len == len + 1 && |r.buf| == Grow(|buf|, len + 1)
      ensures forall x :: r.View()[i := x] == View()[..i] + [x] + View()[i..]
    {
      var r := Reslice(i + 1).Append(View()[i..]);
      assert forall x :: r.View()[i := x] == View()[..i] + [x] + View()[i..];
      r
    }

    function Set(i: nat, x: nat): (r: Slice)
      requires Valid() && i < len
      ensures r.Valid() && r.View() == View()[i := x] && |r.buf| == |buf|
    {
      Slice(buf[i := x], len)
    }
  }

  class Node {
    var isLeaf: bool
    var fileOffset: nat
    var offsets: Slice
    var internalCell: seq<InternalCell>
    var leafCell: seq<LeafCell>

    ghost predicate Ok()
      reads this
    {
      offsets.Valid()
    }

    ghost function View(): Page
      requires Ok()
      reads this
    {
      Page(isLeaf, fileOffset, offsets.View(), |offsets.buf|, internalCell, leafCell)
    }

    constructor (isLeaf: bool)
      ensures Ok() && View() == BLANK.(isLeaf := isLeaf)
    {
      this.isLeaf, fileOffset, offsets, internalCell, leafCell := isLeaf, 0, Slice([], 0), [], [];
    }

    predicate IsFull()
      requires Ok()
      reads this
      ensures IsFull() == P.IsFull(View())
    {
      if isLeaf then offsets.len >= MAX_LEAF_CELLS else offsets.len > MAX_INTERNAL_CELLS
    }

    method AppendInternalCell(fileOffset: nat, key: Bytes)
      requires Ok()
      modifies this
      ensures Ok() && View() == P.AppendInternalCell(old(View()), fileOffset, key)
    {
      offsets := offsets.Append([offsets.len % TWO_16]);
      internalCell := internalCell + [InternalCell(key, fileOffset)];
    }

    method InsertInternalCell(offset: nat, fileOffset: nat, key: Bytes)
      requires Ok() && offset < offsets.len
      modifies this
      ensures Ok() && View() == P.InsertInternalCell(old(View()), offset, fileOffset, key)
    {
      offsets := offsets.OpenAt(offset);
      offsets := offsets.Set(offset, |internalCell| % TWO_16);
      internalCell := internalCell + [InternalCell(key, fileOffset)];
    }

    method AppendLeafCell(key: Bytes, value: Bytes)
      requires Ok()
      modifies this
      ensures Ok() && View() == P.AppendLeafCell(old(View()), key, value)
    {
      offsets := offsets.Append([offsets.len % TWO_16]);
      leafCell := leafCell + [LeafCell(|key| % TWO_32, |value| % TWO_32, key, value)];
    }

    /** Both branches put the new cell at the same place of the order; the second re-slices the
        offsets one past their length when a split page is extended at its end. */
    method InsertLeafCell(offset: nat, key: Bytes, value: Bytes)
      requires Ok() && LeafOK(View()) && offset <= offsets.len
      modifies this
      ensures Ok() && View() == P.InsertLeafCell(old(View()), offset, key, value)
    {
      ResliceInBounds(View(), offset);
      hide LeafOK;
      if offset == |leafCell| % TWO_16 {
        assert offsets.View()[..offset] == offsets.View() && offsets.View()[offset..] == [];
        offsets := offsets.Append([offset]);
      } else {
        offsets := offsets.OpenAt(offset);
        offsets := offsets.Set(offset, |leafCell| % TWO_16);
      }
      leafCell := leafCell + [LeafCell(|key| % TWO_32, |value| % TWO_32, key, value)];
    }

    function CellKey(offset: nat): (r: Bytes)
      requires Ok() && offset < CellCount(View())
      reads this
      ensures r == P.CellKey(View(), offset)
    {
      if isLeaf then leafCell[offset].key else internalCell[offset].key
    }

    /** Binary search. On live keys in order it finds the only place at which the key keeps them so. */
    method FindInsPointForKey(key: Bytes) returns (r: nat)
      requires Ok() && InRange(View())
      ensures r == InsertionPoint(Keys(View()), key) && r <= offsets.len
      ensures Sorted(Keys(View())) ==> r == Rank(Keys(View()), key)
    {
      hide Less, Compare, Rank, SearchFrom, InsertionPoint, Sorted;
      ghost var keys := Keys(View());
      if Sorted(keys) {
        InsertionPointIsRank(keys, key);
      }
      SearchStarts(keys, key);
      var low, high := 0, offsets.len - 1;
      while low <= high
        invariant 0 <= low <= high + 1 <= offsets.len
        invariant SearchFrom(keys, key, low, high) == InsertionPoint(keys, key)
      {
        var mid := low + (high - low) / 2;
        assert View().offsets[mid] == offsets.buf[mid];
        var k := CellKey(offsets.buf[mid]);
        assert k == keys[mid];
        SearchStep(keys, key, low, high);
        if Compare(key, k) == -1 {
          high := mid - 1;
        } else if Compare(key, k) == 1 {
          low := mid + 1;
        } else {
          return mid;
        }
      }
      SearchStep(keys, key, low, high);
      return low;
    }

    /** The last separator at or below the key, or cell 0. */
    method FindChildPage(key: Bytes) returns (found: nat)
      requires Ok() && InRange(View())
      ensures found == ChildCell(View(), key)
    {
      hide Less, Compare, Reach;
      Order();
      ghost var keys := Keys(View());
      found := 0;
      var i := 0;
      while i < offsets.len
        invariant 0 <= i <= offsets.len
        invariant forall j {:trigger keys[j]} | 0 <= j < i :: !Less(key, keys[j])
        invariant found == if i == 0 then 0 else offsets.View()[i - 1]
      {
        var ofs := offsets.buf[i];
        assert ofs == View().offsets[i];
        assert CellKey(ofs) == keys[i];
        if Compare(key, CellKey(ofs)) >= 0 {
          found := ofs;
        } else {
          ReachUnique(keys, key, i);
          return;
        }
        i := i + 1;
      }
      ReachUnique(keys, key, i);
    }

    /** The first cell with this key, live or stale. */
    method FindLeafCell(key: Bytes) returns (r: Option<nat>)
      ensures r == FirstCell(leafCell, key)
    {
      var i := 0;
      while i < |leafCell|
        invariant 0 <= i <= |leafCell|
        invariant forall j | 0 <= j < i :: leafCell[j].key != key
      {
        if leafCell[i].key == key {
          return Some(i);
        }
        i := i + 1;
      }
      return None;
    }

    /** The upper half of the live cells is copied to newpg; the cells stay behind, stale. */
    method Split(newpg: Node) returns (sep: Bytes)
      requires Ok() && InRange(View()) && 1 < offsets.len < TWO_16
      requires newpg != this && newpg.Ok() && newpg.View() == BLANK
      modifies this, newpg
      ensures Ok() && View() == LeftHalf(old(View()))
      ensures newpg.Ok() && newpg.View() == RightHalf(old(View()))
      ensures sep == Keys(old(View()))[SplitPoint(old(View()))]
    {
      hide Less;
      ghost var p := View();
      newpg.isLeaf := isLeaf;
      var splitpt := offsets.len / 2;
      CopyUpperHalf(newpg, splitpt);
      offsets := offsets.Reslice(splitpt);
      assert View().offsets == p.offsets[..splitpt];
      RightHalfFirstKey(p);
      assert newpg.View().offsets[0] == 0 && newpg.offsets.buf[0] == 0 && Keys(newpg.View())[0] == Keys(p)[splitpt];
      sep := newpg.CellKey(newpg.offsets.buf[0]);
    }

    method CopyUpperHalf(newpg: Node, splitpt: nat)
      requires Ok() && InRange(View()) && splitpt == SplitPoint(View())
      requires newpg != this && newpg.Ok() && newpg.View() == BLANK.(isLeaf := isLeaf)
      modifies newpg
      ensures newpg.Ok() && newpg.View() == RightHalf(View())
    {
      hide Less;
      ghost var p := View();
      var i := splitpt;
      if isLeaf {
        while i < offsets.len
          invariant splitpt <= i <= offsets.len
          invariant newpg.Ok() && CopyLeafCells(p, i, newpg.View()) == RightHalf(p)
        {
          var ofs := offsets.buf[i];
          assert ofs == p.offsets[i];
          newpg.AppendLeafCell(leafCell[ofs].key, leafCell[ofs].val);
          i := i + 1;
        }
      } else {
        while i < offsets.len
          invariant splitpt <= i <= offsets.len
          invariant newpg.Ok() && CopyInternalCells(p, i, newpg.View()) == RightHalf(p)
        {
          var ofs := offsets.buf[i];
          assert ofs == p.offsets[i];
          newpg.AppendInternalCell(internalCell[ofs].fileOffset, internalCell[ofs].key);
          i := i + 1;
        }
      }
    }
  }

  /** The tree object: every page stays in the cache, so a page is the object its offset leads to. */
  class BTree {
    var pageCache: map<int, Node>
    var root: Node
    var nextFreeOffset: nat
    ghost var pages: map<int, Page>  // what the cached pages hold

    ghost predicate Holds(o: int)
      requires o in pageCache && o in pages
      reads this, pageCache[o]
    {
      pageCache[o].Ok() && pageCache[o].View() == pages[o] && pages[o].fileOffset == o < nextFreeOffset
    }

    ghost predicate Linked()
      reads this, root, pageCache.Values
    {
      && pages.Keys == pageCache.Keys
      && root.fileOffset in pageCache && pageCache[root.fileOffset] == root
      && forall o {:trigger pageCache[o]} {:trigger Holds(o)} | o in pageCache :: Holds(o)
    }

    ghost function View(): Tree
      reads this, root
    {
      Tree(pages, root.fileOffset, nextFreeOffset)
    }

    constructor ()
      ensures Linked() && View() == NEW_TREE && WellFormed(View())
      ensures fresh(pageCache.Values)
    {
      var pg := new Node(true);
      pageCache, root, nextFreeOffset, pages := map[0 := pg], pg, PAGE_SIZE, map[0 := pg.View()];
      new;
      NewTreeIsWellFormed();
    }

    /** Every cached page was there before or has been allocated since. */
    twostate predicate OnlyFreshPages(before: map<int, Node>)
      reads this
    {
      forall o {:trigger pageCache[o]} | o in pageCache :: (o in before && pageCache[o] == before[o]) || fresh(pageCache[o])
    }

    ghost predicate Cached(pg: Node)
      reads this, pg
    {
      pg.fileOffset in pageCache && pageCache[pg.fileOffset] == pg
    }

    /** The page gets the next free offset and becomes reachable by it. */
    method Add(pg: Node)
      requires Linked() && pg.Ok() && pg !in pageCache.Values
      modifies this, pg`fileOffset
      ensures Linked() && root == old(root) && Cached(pg)
      ensures pageCache == old(pageCache)[old(nextFreeOffset) := pg]
      ensures pg.Ok() && pg.View() == old(pg.View()).(fileOffset := old(nextFreeOffset))
      ensures View() == Tree(old(pages)[old(nextFreeOffset) := pg.View()], old(View()).root, old(nextFreeOffset) + PAGE_SIZE)
    {
      pg.fileOffset := nextFreeOffset;
      pageCache := pageCache[nextFreeOffset := pg];
      pages := pages[nextFreeOffset := pg.View()];
      nextFreeOffset := nextFreeOffset + PAGE_SIZE;
      forall o | o in pageCache ensures Holds(o) {
        assert o != pg.fileOffset ==> old(Holds(o));
      }
    }

    method SetRootPage(pg: Node)
      requires Linked() && pg.Ok() && pg !in pageCache.Values
      modifies this, pg`fileOffset
      ensures Linked() && root == pg
      ensures pageCache == old(pageCache)[old(nextFreeOffset) := pg]
      ensures View() == Tree(old(pages)[old(nextFreeOffset) := old(pg.View()).(fileOffset := old(nextFreeOffset))],
                             old(nextFreeOffset), old(nextFreeOffset) + PAGE_SIZE)
    {
      Add(pg);
      root := pg;
    }

    /** The tree model takes note that one cached page has changed. */
    ghost method Note(pg: Node)
      requires pages.Keys == pageCache.Keys && Cached(pg) && Cached(root) && pg.Ok() && pg.fileOffset < nextFreeOffset
      requires forall o | o in pageCache && o != pg.fileOffset :: Holds(o)
      modifies this`pages
      ensures Linked() && pages == old(pages)[pg.fileOffset := pg.View()]
    {
      pages := pages[pg.fileOffset := pg.View()];
      forall o | o in pageCache ensures Holds(o) {
        assert o != pg.fileOffset ==> old(Holds(o));
      }
    }

    method Get(key: Bytes) returns (r: Option<Bytes>)
      requires Linked() && Shaped(View())
      ensures r == T.Get(View(), key)
    {
      assert Holds(root.fileOffset);
      if root.isLeaf {
        r := GetFromLeaf(root, key);
      } else {
        var ofs := root.FindChildPage(key);
        var childOffset := root.internalCell[ofs].fileOffset;
        assert Holds(childOffset);
        r := GetFromLeaf(pageCache[childOffset], key);
      }
    }

    method GetFromLeaf(next: Node, key: Bytes) returns (r: Option<Bytes>)
      requires next.Ok()
      ensures r == LeafGet(next.View(), key)
    {
      var cell := next.FindLeafCell(key);
      r := if cell.None? then None else Some(next.leafCell[cell.value].val);
    }

    ghost predicate ParentOk(parent: Node?, curr: Node)
      reads this, parent
    {
      parent != null ==>
        && parent != curr && Cached(parent) && parent.Ok() && InRange(parent.View())
    }

    ghost function OffsetOf(parent: Node?): Option<nat>
      reads parent
    {
      if parent == null then None else Some(parent.fileOffset)
    }

    /** Update in place if any cell of the page has the key, live or stale; otherwise insert. */
    method UpsertCell(curr: Node, key: Bytes, value: Bytes) returns (full: bool)
      requires Linked() && Cached(curr) && curr.Ok() && LeafOK(curr.View()) && |curr.leafCell| + 1 < TWO_16
      modifies this`pages, curr
      ensures Linked() && Cached(curr) && curr.Ok() && curr.fileOffset == old(curr.fileOffset)
      ensures curr.View() == Upsert(old(curr.View()), key, value)
      ensures pages == old(pages)[curr.fileOffset := curr.View()]
      ensures full <==> FirstCell(old(curr.leafCell), key).None? && P.IsFull(curr.View())
    {
      hide Less, FirstCell, Rank;
      assert Holds(curr.fileOffset);
      ghost var p := curr.View();
      var existing := curr.FindLeafCell(key);
      if existing.Some? {
        var c := existing.value;
        curr.leafCell := curr.leafCell[c := curr.leafCell[c].(val := value, valSize := |value| % TWO_32)];
        full := false;
      } else {
        var ofs := curr.FindInsPointForKey(key);
        curr.InsertLeafCell(ofs, key, value);
        full := curr.IsFull();
      }
      assert curr.View() == Upsert(p, key, value);
      Note(curr);
    }

    method InsertLeaf(parent: Node?, curr: Node, key: Bytes, value: Bytes)
      requires Linked() && Cached(curr) && curr.Ok() && LeafOK(curr.View()) && |curr.leafCell| + 1 < TWO_16
      requires ParentOk(parent, curr)
      modifies this, curr, parent
      ensures Linked()
      ensures View() == T.InsertLeaf(old(View()), old(OffsetOf(parent)), old(curr.fileOffset), key, value)
      ensures parent != null ==> Cached(parent) && parent.fileOffset == old(parent.fileOffset)
      ensures OnlyFreshPages(old(pageCache))
    {
      hide Less, FirstCell, Rank, SplitPage;
      assert Holds(curr.fileOffset);
      assert parent != null ==> Holds(parent.fileOffset);
      ghost var p := curr.View();
      InsertedKeys(p, Rank(Keys(p), key), key, value);
      var full := UpsertCell(curr, key, value);
      if full {
        SplitAfterUpsert(old(View()), old(OffsetOf(parent)), curr.fileOffset, curr.View());
        SplitLeafPage(parent, curr);
      }
    }

    /** The right half moves to a new page, and its first key to the parent or to a new root. */
    method SplitLeafPage(parent: Node?, curr: Node)
      requires Linked() && Cached(curr) && curr.Ok() && curr.isLeaf && InRange(curr.View()) && 1 < curr.offsets.len < TWO_16
      requires ParentOk(parent, curr)
      modifies this, curr, parent
      ensures Linked()
      ensures View() == T.SplitPage(old(View()), old(OffsetOf(parent)), old(curr.fileOffset), old(curr.View()))
      ensures parent != null ==> Cached(parent) && parent.fileOffset == old(parent.fileOffset)
      ensures OnlyFreshPages(old(pageCache))
    {
      hide Less, FirstCell, RightHalf, Rank, AddChild, NewRoot, SplitPage;
      ghost var t, parentOffset, q := View(), OffsetOf(parent), curr.View();
      SplitPageUnfolds(t, parentOffset, q.fileOffset, q);
      assert Holds(curr.fileOffset);
      assert parent != null ==> Holds(parent.fileOffset);
      var sep, newpg := DivideLeaf(curr);
      var right := newpg.fileOffset;
      if parent == null {
        assert curr.View().offsets[0] == q.offsets[0] && Keys(q)[0] == q.leafCell[q.offsets[0]].key;
        GrowRoot(curr.fileOffset, curr.leafCell[curr.offsets.buf[0]].key, right, sep);
        assert View() == T.SplitPage(t, None, q.fileOffset, q);
      } else {
        assert parent.View() == t.pages[parent.fileOffset];
        AddToParent(parent, right, sep);
        assert View() == T.SplitPage(t, parentOffset, q.fileOffset, q);
      }
    }

    /** A new internal root over the two halves of the page that was the root. */
    method GrowRoot(left: nat, leftKey: Bytes, right: nat, sep: Bytes)
      requires Linked()
      modifies this
      ensures Linked()
      ensures View() == Tree(old(pages)[old(nextFreeOffset) := NewRoot(left, leftKey, right, sep).(fileOffset := old(nextFreeOffset))],
                             old(nextFreeOffset), old(nextFreeOffset) + PAGE_SIZE)
      ensures fresh(root) && pageCache == old(pageCache)[old(nextFreeOffset) := root]
    {
      var parentPg := new Node(false);
      parentPg.AppendInternalCell(left, leftKey);
      parentPg.AppendInternalCell(right, sep);
      SetRootPage(parentPg);
    }

    method DivideLeaf(curr: Node) returns (sep: Bytes, newpg: Node)
      requires Linked() && Cached(curr) && curr.Ok() && curr.isLeaf && InRange(curr.View()) && 1 < curr.offsets.len < TWO_16
      modifies this, curr
      ensures Linked() && root == old(root) && Cached(curr)
      ensures curr.Ok() && curr.View() == LeftHalf(old(curr.View()))
      ensures sep == Keys(old(curr.View()))[SplitPoint(old(curr.View()))] && newpg.fileOffset == old(nextFreeOffset)
      ensures View() == Tree(old(pages)[curr.fileOffset := LeftHalf(old(curr.View()))]
                               [newpg.fileOffset := RightHalf(old(curr.View())).(fileOffset := newpg.fileOffset)],
                             old(View()).root, newpg.fileOffset + PAGE_SIZE)
      ensures fresh(newpg) && pageCache == old(pageCache)[newpg.fileOffset := newpg]
    {
      hide Less, FirstCell, RightHalf, Rank;
      assert Holds(curr.fileOffset);
      newpg := new Node(false);
      assert newpg !in pageCache.Values;
      sep := curr.Split(newpg);
      Note(curr);
      assert curr.fileOffset != nextFreeOffset;
      Add(newpg);
    }

    method AddToParent(parent: Node, fileOffset: nat, sep: Bytes)
      requires Linked() && Cached(parent) && parent.Ok() && InRange(parent.View())
      modifies this`pages, parent
      ensures Linked() && pageCache == old(pageCache) && parent.fileOffset == old(parent.fileOffset)
      ensures View() == old(View()).(pages := old(pages)[old(parent.fileOffset) := AddChild(old(parent.View()), fileOffset, sep)])
    {
      hide Less, Rank;
      assert Holds(parent.fileOffset);
      var of := parent.FindInsPointForKey(sep);
      if of == parent.offsets.len {
        parent.AppendInternalCell(fileOffset, sep);
      } else {
        parent.InsertInternalCell(of, fileOffset, sep);
      }
      Note(parent);
    }

    /** The child page takes the key; a root with a 291st child would have to be split under a nil
        parent, which panics. */
    method InsertInternal(curr: Node, key: Bytes, value: Bytes) returns (ok: bool)
      requires Linked() && Shaped(View()) && curr == root && !root.isLeaf
      modifies this, pageCache.Values
      ensures Linked()
      ensures T.Put(old(View()), key, value) == if ok then Done(View()) else Panics
      ensures OnlyFreshPages(old(pageCache))
    {
      hide Less, FirstCell, Rank, Reach, T.InsertLeaf;
      ghost var t := View();
      assert Holds(root.fileOffset);
      var offset := curr.FindChildPage(key);
      var fileOffset := curr.internalCell[offset].fileOffset;
      assert Holds(fileOffset);
      var childpg := pageCache[fileOffset];
      InsertLeaf(curr, childpg, key, value);
      assert Holds(curr.fileOffset);
      ok := !curr.IsFull();
    }

    /** A put that returns keeps the tree well formed, and is a map update exactly when it strands no
        cell. */
    method Put(key: Bytes, value: Bytes) returns (ok: bool)
      requires Linked() && Shaped(View())
      modifies this, pageCache.Values
      ensures Linked()
      ensures T.Put(old(View()), key, value) == if ok then Done(View()) else Panics
      ensures ok && WellFormed(old(View())) ==>
                WellFormed(View()) && (Refines(old(View()), key, value, View()) <==> !Strands(old(View()), key))
      ensures OnlyFreshPages(old(pageCache))
    {
      hide Less, FirstCell, Rank, Reach, T.InsertLeaf, T.Put, Refines, Strands, WellFormed;
      ghost var t := View();
      assert Holds(root.fileOffset);
      if root.isLeaf {
        PutUnfolds(t, key, value);
        InsertLeaf(null, root, key, value);
        ok := true;
      } else {
        ok := InsertInternal(root, key, value);
      }
      if ok && WellFormed(t) {
        PutAnswers(t, key, value);
        PutRefinesIff(t, key, value);
      }
    }
  }

  lemma PutUnfolds(t: Tree, k: Bytes, v: Bytes)
    requires Shaped(t) && t.pages[t.root].isLeaf
    ensures T.Put(t, k, v) == Done(T.InsertLeaf(t, None, t.root, k, v))
  {}
}
