/** Why the map property needs its condition: a run of puts from the empty tree, the last of them stranding
    a cell, after which a key that was put and never overwritten is no longer found. Keys are one byte
    long and values empty. */
module LostKeys {
  import opened Types
  import opened KeyOrder
  import opened Pages
  import opened Trees
  import opened TreeAnswers
  import opened Tables

  function Pairs(ks: seq<Byte>): seq<Pair> {
    seq(|ks|, i requires 0 <= i < |ks| => ([ks[i]], []))
  }

  ghost predicate Puts(t: Tree, k: Byte, t': Tree) {
    PutGives(t, ([k], []), t')
  }

  lemma OneMore(ks: seq<Byte>, ts: seq<Tree>, k: Byte, t: Tree)
    requires IsHistory(Pairs(ks), ts) && Puts(ts[|ks|], k, t)
    ensures IsHistory(Pairs(ks + [k]), ts + [t]) && Shaped(t)
  {
    hide PutGives, WellFormed;
    var puts, ts' := Pairs(ks + [k]), ts + [t];
    forall i {:trigger puts[i]} | 0 <= i < |puts| ensures PutGives(ts'[i], puts[i], ts'[i + 1]) {
      if i < |ks| {
        assert puts[i] == Pairs(ks)[i];
        assert PutGives(ts[i], Pairs(ks)[i], ts[i + 1]);
      }
    }
    HistoryWellFormed(puts, ts', |ks| + 1);
    assert WellFormed(t);
    StillShaped(t);
  }

  lemma StillShaped(t: Tree)
    requires WellFormed(t)
    ensures Shaped(t)
  {}

  // ---------- Pages of one-byte keys ----------

  function ByteCells(keys: seq<Byte>): seq<LeafCell> {
    seq(|keys|, i requires 0 <= i < |keys| => NewLeafCell([keys[i]], []))
  }

  function BytePage(offsets: seq<nat>, cap: nat, keys: seq<Byte>): Page {
    Page(true, 0, offsets, cap, [], ByteCells(keys))
  }

  ghost predicate Ascending(offsets: seq<nat>, keys: seq<Byte>) {
    && (forall i {:trigger offsets[i]} | 0 <= i < |offsets| :: offsets[i] < |keys|)
    && (forall i, j {:trigger offsets[i], offsets[j]} | 0 <= i < j < |offsets| :: keys[offsets[i]] < keys[offsets[j]])
  }

  lemma ByteOrder()
    ensures forall a: Byte, b: Byte {:trigger Less([a], [b])} :: Less([a], [b]) <==> a < b
  {
    forall a: Byte, b: Byte ensures Less([a], [b]) <==> a < b {
      assert Compare([a], [b]) == if a < b then -1 else if a > b then 1 else Compare([a][1..], [b][1..]);
    }
  }

  ghost predicate Roomy(offsets: seq<nat>, cap: nat, keys: seq<Byte>) {
    && Ascending(offsets, keys)
    && (forall i, j {:trigger keys[i], keys[j]} | 0 <= i < j < |keys| :: keys[i] != keys[j])
    && |offsets| <= cap && |offsets| <= |keys| <= 100 && |offsets| < MAX_LEAF_CELLS
    && (|keys| > |offsets| ==> cap >= MAX_LEAF_CELLS)
  }

  lemma BytePageOK(offsets: seq<nat>, cap: nat, keys: seq<Byte>)
    requires Roomy(offsets, cap, keys)
    ensures var p := BytePage(offsets, cap, keys);
            && LeafOK(p) && |Keys(p)| == |offsets|
            && forall i {:trigger Keys(p)[i]} | 0 <= i < |offsets| :: Keys(p)[i] == [keys[offsets[i]]]
  {
    ByteOrder();
    hide Less;
  }

  /** Where a new key goes among the live ones. */
  ghost predicate Fits(offsets: seq<nat>, keys: seq<Byte>, k: Byte, r: nat) {
    && Ascending(offsets, keys) && k !in keys && r <= |offsets|
    && (forall i {:trigger offsets[i]} | 0 <= i < r :: keys[offsets[i]] < k)
    && (forall i {:trigger offsets[i]} | r <= i < |offsets| :: k < keys[offsets[i]])
  }

  lemma InsertByte(offsets: seq<nat>, cap: nat, keys: seq<Byte>, k: Byte, r: nat)
    requires Roomy(offsets, cap, keys) && Fits(offsets, keys, k, r)
    ensures var p := BytePage(offsets, cap, keys);
            && FirstCell(p.leafCell, [k]).None?
            && InRange(p) && Upsert(p, [k], [])
                             == BytePage(offsets[..r] + [|keys|] + offsets[r..], Grow(cap, |offsets| + 1), keys + [k])
  {
    hide Less, Rank, FirstCell, Ascending, Keys;
    BytePageOK(offsets, cap, keys);
    NewByte(keys, k);
    ByteRank(offsets, cap, keys, k, r);
  }

  lemma NewByte(keys: seq<Byte>, k: Byte)
    requires k !in keys
    ensures FirstCell(ByteCells(keys), [k]).None?
    ensures ByteCells(keys + [k]) == ByteCells(keys) + [NewLeafCell([k], [])]
  {
    var cells := ByteCells(keys);
    forall i | 0 <= i < |cells| ensures cells[i].key != [k] {
      assert cells[i].key[0] == keys[i];
    }
  }

  lemma ByteRank(offsets: seq<nat>, cap: nat, keys: seq<Byte>, k: Byte, r: nat)
    requires Roomy(offsets, cap, keys) && Fits(offsets, keys, k, r)
    ensures var p := BytePage(offsets, cap, keys); InRange(p) && Rank(Keys(p), [k]) == r
  {
    BytePageOK(offsets, cap, keys);
    ByteOrder();
    hide Less, Rank, LeafOK;
    RankUnique(Keys(BytePage(offsets, cap, keys)), [k], r);
  }

  // ---------- A root leaf ----------

  function Upto(n: nat): seq<nat> {
    seq(n, i => i)
  }

  function Tens(n: nat): seq<Byte>
    requires n <= 9
  {
    seq(n, i requires 0 <= i < n => 10 * (i + 1))
  }

  function Cap(n: nat): nat {
    if n == 0 then 0 else Grow(Cap(n - 1), n)
  }

  function Alone(p: Page): Tree {
    Tree(map[0 := p], 0, PAGE_SIZE)
  }

  function RootLeaf(n: nat): Tree
    requires n <= 9
  {
    Alone(BytePage(Upto(n), Cap(n), Tens(n)))
  }

  lemma CapCovers(n: nat)
    ensures Cap(n) >= n && Cap(8) == 8 && Cap(9) == 16
  {
    assert Cap(2) == 2 && Cap(4) == 4 && Cap(6) == 8 && Cap(8) == 8;
  }

  lemma PutAlone(offsets: seq<nat>, cap: nat, keys: seq<Byte>, k: Byte, r: nat)
    requires Roomy(offsets, cap, keys) && Fits(offsets, keys, k, r) && |offsets| == |keys| < 8
    ensures Puts(Alone(BytePage(offsets, cap, keys)), k,
                 Alone(BytePage(offsets[..r] + [|keys|] + offsets[r..], Grow(cap, |offsets| + 1), keys + [k])))
  {
    hide Less, FirstCell, Rank, Ascending, Upsert, LeafGet;
    BytePageOK(offsets, cap, keys);
    InsertByte(offsets, cap, keys, k, r);
    var t := Alone(BytePage(offsets, cap, keys));
    assert Shaped(t);
    PutStays(t, [k], []);
    UpsertedIs(t, [k], []);
  }

  lemma TensFit(n: nat)
    requires n <= 8
    ensures Roomy(Upto(n), Cap(n), Tens(n)) && Fits(Upto(n), Tens(n), 10 * (n + 1), n)
    ensures Upto(n)[..n] + [n] + Upto(n)[n..] == Upto(n + 1) && Tens(n) + [10 * (n + 1)] == Tens(n + 1)
  {
    CapCovers(n);
    hide Cap;
  }

  lemma GrowLeaf(n: nat)
    requires n < 8
    ensures Puts(RootLeaf(n), 10 * (n + 1), RootLeaf(n + 1))
  {
    hide Puts;
    TensFit(n);
    PutAlone(Upto(n), Cap(n), Tens(n), 10 * (n + 1), n);
  }

  // ---------- An internal root over page 0 and others ----------

  /** Page 0 holds these cells, and the root at 8192 is this page. */
  ghost predicate Over(t: Tree, root: Page, next: nat, offsets: seq<nat>, keys: seq<Byte>) {
    && t.root == 8192 && 8192 in t.pages && t.pages[8192] == root
    && 0 in t.pages && t.pages[0] == BytePage(offsets, 16, keys)
    && t.nextFree == next > 8192
  }

  const ROOT2 := Page(false, 8192, [0, 1], 2, [InternalCell([10], 0), InternalCell([50], 4096)], [])
  const ROOT3 := Page(false, 8192, [2, 0, 1], 4, ROOT2.internalCell + [InternalCell([5], 12288)], [])
  const ROOT4 := Page(false, 8192, [2, 0, 3, 1], 4, ROOT3.internalCell + [InternalCell([11], 16384)], [])

  /** A ninth live key fills the page. */
  lemma FillByte(offsets: seq<nat>, cap: nat, keys: seq<Byte>, k: Byte, r: nat)
    requires Roomy(offsets, cap, keys) && Fits(offsets, keys, k, r) && |offsets| == 8 && Grow(cap, 9) == 16
    ensures var grown, all := offsets[..r] + [|keys|] + offsets[r..], keys + [k];
            var p, q := BytePage(offsets, cap, keys), BytePage(grown, 16, all);
            && LeafOK(p) && |p.leafCell| + 1 < TWO_16 && FirstCell(p.leafCell, [k]).None?
            && Upsert(p, [k], []) == q && IsFull(q) && InRange(q)
            && grown[0] < |all| && grown[4] < |all|
            && Keys(q)[0] == [all[grown[0]]] && Keys(q)[4] == [all[grown[4]]]
  {
    hide Less, Rank, FirstCell, Ascending, Fits;
    BytePageOK(offsets, cap, keys);
    InsertByte(offsets, cap, keys, k, r);
    var p := BytePage(offsets, cap, keys);
    InsertedKeys(p, Rank(Keys(p), [k]), [k], []);
  }

  lemma SplitAlone(offsets: seq<nat>, cap: nat, keys: seq<Byte>, k: Byte, r: nat) returns (t': Tree)
    requires Roomy(offsets, cap, keys) && Fits(offsets, keys, k, r) && |offsets| == |keys| == 8 && Grow(cap, 9) == 16
    ensures var grown, all := offsets[..r] + [|keys|] + offsets[r..], keys + [k];
            && InRange(BytePage(grown, 16, all)) && Puts(Alone(BytePage(offsets, cap, keys)), k, t')
            && Over(t', NewRoot(0, [all[grown[0]]], 4096, [all[grown[4]]]).(fileOffset := 8192), 12288, grown[..4], all)
  {
    hide Less, Upsert, FirstCell, Ascending, RightHalf, NewRoot, SplitPage, Put, LeafGet;
    FillByte(offsets, cap, keys, k, r);
    var grown, all := offsets[..r] + [|keys|] + offsets[r..], keys + [k];
    var p, q := BytePage(offsets, cap, keys), BytePage(grown, 16, all);
    var t := Alone(p);
    assert Shaped(t);
    RootSplits(t, [k], []);
    UpsertedIs(t, [k], []);
    SplitPageUnfolds(t, None, 0, q);
    t' := Put(t, [k], []).tree;
  }

  lemma SplitRootLeaf() returns (t: Tree)
    ensures Puts(RootLeaf(8), 90, t) && Over(t, ROOT2, 12288, [0, 1, 2, 3], Tens(9))
  {
    hide Puts, Over, Cap, NewRoot, Roomy, Fits, BytePage;
    CapCovers(8);
    TensFit(8);
    FirstRoot();
    t := SplitAlone(Upto(8), Cap(8), Tens(8), 90, 8);
  }

  lemma FirstRoot()
    ensures Upto(9)[..4] == [0, 1, 2, 3] && Upto(9)[0] == 0 && Upto(9)[4] == 4 && Tens(9)[0] == 10 && Tens(9)[4] == 50
    ensures NewRoot(0, [10], 4096, [50]).(fileOffset := 8192) == ROOT2
  {}

  ghost predicate SendsToZero(root: Page, k: Byte) {
    && !root.isLeaf && InRange(root) && |root.offsets| < MAX_INTERNAL_CELLS
    && ChildCell(root, [k]) < |root.internalCell| && root.internalCell[ChildCell(root, [k])].fileOffset == 0
  }

  /** A put into page 0 that does not fill it. */
  lemma PutIntoZero(t: Tree, root: Page, next: nat, offsets: seq<nat>, keys: seq<Byte>, k: Byte, r: nat) returns (t': Tree)
    requires Shaped(t) && Over(t, root, next, offsets, keys) && SendsToZero(root, k)
    requires Roomy(offsets, 16, keys) && Fits(offsets, keys, k, r) && |offsets| < 8
    ensures Puts(t, k, t') && Over(t', root, next, offsets[..r] + [|keys|] + offsets[r..], keys + [k])
  {
    hide Less, FirstCell, Rank, Ascending, Upsert, LeafGet, Put;
    InsertByte(offsets, 16, keys, k, r);
    PutStays(t, [k], []);
    UpsertedIs(t, [k], []);
    t' := Put(t, [k], []).tree;
  }

  /** A put into page 0 that fills and splits it. */
  lemma SplitZero(t: Tree, root: Page, next: nat, offsets: seq<nat>, keys: seq<Byte>, k: Byte, r: nat) returns (t': Tree)
    requires Shaped(t) && Over(t, root, next, offsets, keys) && SendsToZero(root, k)
    requires Roomy(offsets, 16, keys) && Fits(offsets, keys, k, r) && |offsets| == 8
    ensures var grown, all := offsets[..r] + [|keys|] + offsets[r..], keys + [k];
            var q := BytePage(grown, 16, all);
            && InRange(q) && Puts(t, k, t')
            && Over(t', AddChild(root, next, [all[grown[4]]]), next + PAGE_SIZE, grown[..4], all)
            && next in t'.pages && t'.pages[next] == RightHalf(q).(fileOffset := next)
  {
    hide Less, Upsert, FirstCell, Ascending, Roomy, ByteCells, RightHalf, Rank, SplitPage, Put, LeafGet, AddChild;
    FillByte(offsets, 16, keys, k, r);
    ChildSplits(t, [k], []);
    ChildSplitGives(t, [k], []);
    UpsertedIs(t, [k], []);
    SeparatorIsSplitKey(t, [k], []);
    t' := Put(t, [k], []).tree;
  }

  // ---------- The run ----------

  function Low(n: nat): seq<Byte>
    requires n <= 5
  {
    seq(n, i requires 0 <= i < n => i + 1)
  }

  function Mid(n: nat): seq<Byte>
    requires n <= 5
  {
    seq(n, i requires 0 <= i < n => 11 + i)
  }

  function Run(first: nat, n: nat): seq<nat> {
    seq(n, i => first + i)
  }

  lemma LowFits(n: nat)
    requires n <= 4
    ensures var offsets, keys := Run(9, n) + [0, 1, 2, 3], Tens(9) + Low(n);
            && Roomy(offsets, 16, keys) && Fits(offsets, keys, n + 1, n)
            && offsets[..n] + [|keys|] + offsets[n..] == Run(9, n + 1) + [0, 1, 2, 3]
            && keys + [n + 1] == Tens(9) + Low(n + 1)
  {
    var offsets, keys := Run(9, n) + [0, 1, 2, 3], Tens(9) + Low(n);
    forall i {:trigger offsets[i]} | 0 <= i < |offsets|
      ensures offsets[i] < |keys| && keys[offsets[i]] == if i < n then i + 1 else 10 * (i - n + 1)
    {}
  }

  lemma MidFits(n: nat)
    requires n <= 4
    ensures var offsets, keys := [9, 10, 11, 12] + Run(14, n), Tens(9) + Low(5) + Mid(n);
            && Roomy(offsets, 16, keys) && Fits(offsets, keys, 11 + n, 4 + n)
            && offsets[..4 + n] + [|keys|] + offsets[4 + n..] == [9, 10, 11, 12] + Run(14, n + 1)
            && keys + [11 + n] == Tens(9) + Low(5) + Mid(n + 1)
  {
    var offsets, keys := [9, 10, 11, 12] + Run(14, n), Tens(9) + Low(5) + Mid(n);
    forall i {:trigger offsets[i]} | 0 <= i < |offsets|
      ensures offsets[i] < |keys| && keys[offsets[i]] == if i < 4 then i + 1 else 7 + i
    {}
  }

  /** Keys below the leftmost separator, 10, go to page 0. */
  lemma LowRoutes(k: Byte)
    requires k < 10
    ensures SendsToZero(ROOT2, k)
  {
    ByteOrder();
    hide Less, Reach;
    assert Keys(ROOT2) == [[10], [50]];
    ReachUnique(Keys(ROOT2), [k], 0);
  }

  /** Keys between 10 and 50 still go to page 0, although 10, 20, 30 and 40 have moved to page 12288. */
  lemma MidRoutes(k: Byte)
    requires 10 <= k < 50
    ensures SendsToZero(ROOT3, k)
  {
    ByteOrder();
    hide Less, Reach;
    assert Keys(ROOT3) == [[5], [10], [50]];
    ReachUnique(Keys(ROOT3), [k], 2);
  }

  lemma RootsGrow()
    ensures AddChild(ROOT2, 12288, [5]) == ROOT3 && AddChild(ROOT3, 16384, [11]) == ROOT4
  {
    ByteOrder();
    hide Less, Rank;
    assert Keys(ROOT2) == [[10], [50]] && Keys(ROOT3) == [[5], [10], [50]];
    RankUnique(Keys(ROOT2), [5], 0);
    RankUnique(Keys(ROOT3), [11], 2);
  }

  /** 20 now routes to the page of 11 to 15. */
  lemma TwentyRoutes(t: Tree)
    requires Shaped(t) && t.root == 8192 && t.pages[8192] == ROOT4
    ensures LeafFor(t, [20]) == 16384
  {
    ByteOrder();
    hide Less, Reach;
    assert Keys(ROOT4) == [[5], [10], [11], [50]];
    ReachUnique(Keys(ROOT4), [20], 3);
  }

  /** Before the last put 20 is still found, in a stale cell of page 0. */
  lemma TwentyStale(t: Tree, offsets: seq<nat>, keys: seq<Byte>)
    requires Shaped(t) && Over(t, ROOT3, 16384, offsets, keys) && 20 in keys
    ensures Get(t, [20]).Some?
  {
    MidRoutes(20);
    hide Less, Reach;
    assert LeafFor(t, [20]) == 0;
    var i :| 0 <= i < |keys| && keys[i] == 20;
    assert ByteCells(keys)[i].key == [20];
  }

  lemma TwentyNotAmong(offsets: seq<nat>, cap: nat, keys: seq<Byte>)
    requires Ascending(offsets, keys) && |offsets| == MAX_LEAF_CELLS <= cap && |offsets| <= |keys| <= 100
    requires forall i {:trigger offsets[i]} | 4 <= i < |offsets| :: keys[offsets[i]] != 20
    ensures var q := BytePage(offsets, cap, keys); InRange(q) && LeafGet(RightHalf(q), [20]).None?
  {
    hide CopyLeafCells;
    var q := BytePage(offsets, cap, keys);
    CopyLeafCellsFacts(q, SplitPoint(q), BLANK.(isLeaf := true));
    var r := RightHalf(q);
    forall j | 0 <= j < |r.leafCell| ensures r.leafCell[j].key != [20] {
      assert r.leafCell[j].key == [keys[offsets[4 + j]]];
    }
  }

  /** The tree reached by putting these keys. */
  ghost predicate Reaches(ks: seq<Byte>, ts: seq<Tree>, t: Tree) {
    IsHistory(Pairs(ks), ts) && t == ts[|ks|] && Shaped(t)
  }

  /** 10, 20, ..., 90 grow a tree with leftmost separator 10; 1 to 5 go below it and split the leftmost
      leaf at 5; the last of 11 to 15 splits it once more, strands 20 and loses it. */
  lemma LostKey() returns (ks: seq<Byte>, ts: seq<Tree>)
    ensures ks == Tens(9) + Low(5) + Mid(5) && IsHistory(Pairs(ks), ts)
    ensures Shaped(ts[18]) && Get(ts[18], [20]).Some? && Strands(ts[18], [15])
    ensures Shaped(ts[19]) && Get(ts[19], [20]) == None && LastPut(Pairs(ks), [20]).Some?
  {
    hide WellFormed, PutGives, BytePage, Strands, LeafFor, LeafGet, Shaped, ByteCells, Over;
    var t;
    ks, ts, t := SplitOnce();
    ks, ts, t := SplitTwice(ks, ts, t);
    ks, ts, t := SplitThrice(ks, ts, t);
    assert Pairs(ks)[1] == ([20], []);
    var _ := LastPutAt(Pairs(ks), [20], 1);
    HistoryWellFormed(Pairs(ks), ts, 18);
    assert PutGives(ts[18], Pairs(ks)[18], ts[19]) && Pairs(ks)[18] == ([15], []);
    LastPutStrands(ts[18], ts[19]);
  }

  lemma LastPutStrands(t: Tree, t': Tree)
    requires WellFormed(t) && Puts(t, 15, t') && Shaped(t') && Get(t, [20]).Some? && Get(t', [20]).None?
    ensures Strands(t, [15])
  {
    hide Strands, Get, Put, Served;
    PutRefinesIff(t, [15], []);
  }

  lemma SplitOnce() returns (ks: seq<Byte>, ts: seq<Tree>, t: Tree)
    ensures ks == Tens(9) && Reaches(ks, ts, t) && Over(t, ROOT2, 12288, [0, 1, 2, 3], Tens(9))
  {
    hide Puts, Over, BytePage, Cap, PutGives, Shaped;
    ks, ts := [], [NEW_TREE];
    assert RootLeaf(0) == NEW_TREE by {
      EmptyRootLeaf();
    }
    for n := 0 to 8
      invariant IsHistory(Pairs(ks), ts) && ks == Tens(n) && ts[|ks|] == RootLeaf(n)
    {
      GrowLeaf(n);
      OneMore(ks, ts, 10 * (n + 1), RootLeaf(n + 1));
      ks, ts := ks + [10 * (n + 1)], ts + [RootLeaf(n + 1)];
    }
    t := SplitRootLeaf();
    OneMore(ks, ts, 90, t);
    ks, ts := ks + [90], ts + [t];
  }

  lemma EmptyRootLeaf()
    ensures RootLeaf(0) == NEW_TREE
  {
    assert Upto(0) == [] && Tens(0) == [] && ByteCells([]) == [];
  }

  /** The put of 5 moves 5, 10, 20, 30 and 40 to a page in front of page 0. */
  lemma SplitTwice(ks0: seq<Byte>, ts0: seq<Tree>, t0: Tree) returns (ks: seq<Byte>, ts: seq<Tree>, t: Tree)
    requires ks0 == Tens(9) && Reaches(ks0, ts0, t0) && Over(t0, ROOT2, 12288, [0, 1, 2, 3], Tens(9))
    ensures ks == Tens(9) + Low(5) && Reaches(ks, ts, t) && Over(t, ROOT3, 16384, [9, 10, 11, 12], Tens(9) + Low(5))
  {
    hide Puts, Over, SendsToZero, Roomy, Fits, BytePage, RightHalf, AddChild, Shaped, IsHistory;
    ks, ts, t := ks0, ts0, t0;
    assert Run(9, 0) + [0, 1, 2, 3] == [0, 1, 2, 3] && Tens(9) + Low(0) == Tens(9);
    for n := 0 to 4
      invariant ks == Tens(9) + Low(n) && Reaches(ks, ts, t)
      invariant Over(t, ROOT2, 12288, Run(9, n) + [0, 1, 2, 3], Tens(9) + Low(n))
    {
      LowFits(n);
      LowRoutes(n + 1);
      var t' := PutIntoZero(t, ROOT2, 12288, Run(9, n) + [0, 1, 2, 3], Tens(9) + Low(n), n + 1, n);
      ks, ts, t := Extend(ks, ts, t, n + 1, t');
    }
    LowFits(4);
    LowRoutes(5);
    RootsGrow();
    var t' := SplitZero(t, ROOT2, 12288, Run(9, 4) + [0, 1, 2, 3], Tens(9) + Low(4), 5, 4);
    assert (Run(9, 5) + [0, 1, 2, 3])[..4] == [9, 10, 11, 12] && (Tens(9) + Low(5))[13] == 5;
    ks, ts, t := Extend(ks, ts, t, 5, t');
  }

  lemma Extend(ks: seq<Byte>, ts: seq<Tree>, t: Tree, k: Byte, t': Tree) returns (ks': seq<Byte>, ts': seq<Tree>, last: Tree)
    requires Reaches(ks, ts, t) && Puts(t, k, t')
    ensures ks' == ks + [k] && ts' == ts + [t'] && last == t' && Reaches(ks', ts', t') && |ts| == |ks| + 1
  {
    hide Puts, PutGives, Shaped;
    OneMore(ks, ts, k, t');
    ks', ts', last := ks + [k], ts + [t'], t';
  }

  lemma SplitThrice(ks0: seq<Byte>, ts0: seq<Tree>, t0: Tree) returns (ks: seq<Byte>, ts: seq<Tree>, t: Tree)
    requires ks0 == Tens(9) + Low(5) && Reaches(ks0, ts0, t0) && Over(t0, ROOT3, 16384, [9, 10, 11, 12], Tens(9) + Low(5))
    ensures ks == Tens(9) + Low(5) + Mid(5) && Reaches(ks, ts, t) && |ts| == |ks| + 1 == 20
    ensures Shaped(ts[18]) && Get(ts[18], [20]).Some? && Get(t, [20]) == None
  {
    hide Puts, SendsToZero, Fits, RightHalf, AddChild, FirstCell, Roomy, Shaped, IsHistory, LeafFor, LeafGet, BytePage;
    ks, ts, t := ks0, ts0, t0;
    assert [9, 10, 11, 12] + Run(14, 0) == [9, 10, 11, 12] && Tens(9) + Low(5) + Mid(0) == Tens(9) + Low(5);
    for n := 0 to 4
      invariant ks == Tens(9) + Low(5) + Mid(n) && Reaches(ks, ts, t)
      invariant Over(t, ROOT3, 16384, [9, 10, 11, 12] + Run(14, n), Tens(9) + Low(5) + Mid(n))
    {
      MidFits(n);
      MidRoutes(11 + n);
      var t' := PutIntoZero(t, ROOT3, 16384, [9, 10, 11, 12] + Run(14, n), Tens(9) + Low(5) + Mid(n), 11 + n, 4 + n);
      ks, ts, t := Extend(ks, ts, t, 11 + n, t');
    }
    MidFits(4);
    MidRoutes(15);
    RootsGrow();
    assert (Tens(9) + Low(5) + Mid(4))[1] == 20;
    TwentyStale(t, [9, 10, 11, 12] + Run(14, 4), Tens(9) + Low(5) + Mid(4));
    var t' := SplitZero(t, ROOT3, 16384, [9, 10, 11, 12] + Run(14, 4), Tens(9) + Low(5) + Mid(4), 15, 8);
    LastPage();
    ks, ts, t := Extend(ks, ts, t, 15, t');
    TwentyRoutes(t);
  }

  lemma LastPage()
    ensures var offsets, keys := [9, 10, 11, 12] + Run(14, 5), Tens(9) + Low(5) + Mid(5);
            && keys[offsets[4]] == 11
            && var q := BytePage(offsets, 16, keys); InRange(q) && LeafGet(RightHalf(q).(fileOffset := 16384), [20]).None?
  {
    var offsets, keys := [9, 10, 11, 12] + Run(14, 5), Tens(9) + Low(5) + Mid(5);
    forall i {:trigger offsets[i]} | 0 <= i < |offsets|
      ensures offsets[i] < |keys| && keys[offsets[i]] == if i < 4 then i + 1 else 7 + i
    {}
    TwentyNotAmong(offsets, 16, keys);
  }
}
