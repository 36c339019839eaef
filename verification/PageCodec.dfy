/** The 4096-byte page format of node.go. */
module PageCodec {
  import opened Types
  import opened KeyOrder
  import opened Binary
  import opened Pages

  const LEAF_NODE: Byte := 1
  const INTERNAL_NODE: Byte := 2

  // ---------- Lists of fields ----------

  function OffsetBytes(offsets: seq<nat>): Bytes {
    if offsets == [] then [] else LE(2, offsets[0] % TWO_16) + OffsetBytes(offsets[1..])
  }

  function LeafCellBytes(c: LeafCell): Bytes {
    LE(4, c.keySize % TWO_32) + LE(4, c.valSize % TWO_32) + c.key + c.val
  }

  function LeafCellsBytes(cells: seq<LeafCell>): Bytes {
    if cells == [] then [] else LeafCellBytes(cells[0]) + LeafCellsBytes(cells[1..])
  }

  function InternalCellBytes(c: InternalCell): Bytes {
    LE(4, |c.key| % TWO_32) + c.key + LE(8, c.fileOffset % TWO_64)
  }

  function InternalCellsBytes(cells: seq<InternalCell>): Bytes {
    if cells == [] then [] else InternalCellBytes(cells[0]) + InternalCellsBytes(cells[1..])
  }

  /** A value read off the front of the buffer, and what is left. */
  datatype Reading<T> = Reading(value: T, rest: Bytes)

  function ReadOffsets(b: Bytes, n: nat): Option<Reading<seq<nat>>> {
    if n == 0 then Some(Reading([], b))
    else if |b| < 2 then None
    else
      var r := ReadOffsets(b[2..], n - 1);
      if r.None? then None else Some(Reading([FromLE(b[..2])] + r.value.value, r.value.rest))
  }

  function ReadLeafCell(b: Bytes): Option<Reading<LeafCell>> {
    if |b| < 8 then None else
    var k, v := FromLE(b[..4]), FromLE(b[4..8]);
    if |b| < 8 + k + v then None
    else Some(Reading(LeafCell(k, v, b[8..8 + k], b[8 + k..8 + k + v]), b[8 + k + v..]))
  }

  function ReadLeafCells(b: Bytes, n: nat): Option<Reading<seq<LeafCell>>> {
    if n == 0 then Some(Reading([], b)) else
    var c := ReadLeafCell(b);
    if c.None? then None else
    var r := ReadLeafCells(c.value.rest, n - 1);
    if r.None? then None else Some(Reading([c.value.value] + r.value.value, r.value.rest))
  }

  function ReadInternalCell(b: Bytes): Option<Reading<InternalCell>> {
    if |b| < 4 then None else
    var k := FromLE(b[..4]);
    if |b| < 4 + k + 8 then None
    else Some(Reading(InternalCell(b[4..4 + k], FromLE(b[4 + k..4 + k + 8])), b[4 + k + 8..]))
  }

  function ReadInternalCells(b: Bytes, n: nat): Option<Reading<seq<InternalCell>>> {
    if n == 0 then Some(Reading([], b)) else
    var c := ReadInternalCell(b);
    if c.None? then None else
    var r := ReadInternalCells(c.value.rest, n - 1);
    if r.None? then None else Some(Reading([c.value.value] + r.value.value, r.value.rest))
  }

  // ---------- Pages ----------

  /** The live cells, in the order the offsets list them. */
  function LiveLeafCells(p: Page): seq<LeafCell>
    requires p.isLeaf && InRange(p)
  {
    seq(|p.offsets|, i requires 0 <= i < |p.offsets| => p.leafCell[p.offsets[i]])
  }

  function LiveInternalCells(p: Page): seq<InternalCell>
    requires !p.isLeaf && InRange(p)
  {
    seq(|p.offsets|, i requires 0 <= i < |p.offsets| => p.internalCell[p.offsets[i]])
  }

  function Body(p: Page): Bytes
    requires InRange(p)
  {
    if p.isLeaf then
      [LEAF_NODE] + LE(2, |p.offsets| % TWO_16) + OffsetBytes(p.offsets) + LeafCellsBytes(LiveLeafCells(p))
    else
      [INTERNAL_NODE] + LE(8, p.fileOffset % TWO_64) + LE(4, |p.offsets| % TWO_32) + OffsetBytes(p.offsets)
      + InternalCellsBytes(LiveInternalCells(p))
  }

  /** The body, the count of free bytes and that many zeros; too large a body is an error. */
  function Encode(p: Page): Result<Bytes>
    requires InRange(p)
  {
    var body := Body(p);
    if |body| + 2 > PAGE_SIZE then Err
    else
      var free := PAGE_SIZE - |body| - 2;
      Ok(body + LE(2, free) + seq(free, _ => 0))
  }

  /** Reading back a leaf leaves its file offset to the caller; a fresh slice is as long as its array. */
  function DecodeLeaf(b: Bytes): Result<Page> {
    if |b| < 2 then Err else
    var n := FromLE(b[..2]);
    var os := ReadOffsets(b[2..], n);
    if os.None? then Err else
    var cs := ReadLeafCells(os.value.rest, n);
    if cs.None? then Err else Ok(Page(true, 0, os.value.value, n, [], cs.value.value))
  }

  function DecodeInternal(b: Bytes): Result<Page> {
    if |b| < 12 then Err else
    var n := FromLE(b[8..12]);
    var os := ReadOffsets(b[12..], n);
    if os.None? then Err else
    var cs := ReadInternalCells(os.value.rest, n);
    if cs.None? then Err else Ok(Page(false, FromLE(b[..8]), os.value.value, n, cs.value.value, []))
  }

  /** Any type byte but a leaf's is taken for an internal page. */
  function Decode(b: Bytes): Result<Page> {
    if b == [] then Err
    else if b[0] == LEAF_NODE then DecodeLeaf(b[1..])
    else DecodeInternal(b[1..])
  }

  /** The first byte decides the kind, and whatever is not a leaf's is read as an internal page. */
  lemma KindByte(x: Byte, rest: Bytes)
    ensures x == 1 ==> (Decode([x] + rest).Ok? ==> Decode([x] + rest).value.isLeaf)
    ensures x != 1 ==> (Decode([x] + rest).Ok? ==> !Decode([x] + rest).value.isLeaf) && Decode([x] + rest) == Decode([2] + rest)
  {
    hide DecodeLeaf, DecodeInternal;
    assert ([x] + rest)[1..] == rest && ([2] + rest)[1..] == rest;
    DecodedKinds(rest);
  }

  lemma DecodedKinds(b: Bytes)
    ensures DecodeLeaf(b).Ok? ==> DecodeLeaf(b).value.isLeaf
    ensures DecodeInternal(b).Ok? ==> !DecodeInternal(b).value.isLeaf
  {}

  // ---------- What Go's types guarantee ----------

  ghost predicate Storable(p: Page) {
    && InRange(p)
    && (forall i {:trigger p.offsets[i]} | 0 <= i < |p.offsets| :: p.offsets[i] < TWO_16)
    && (p.isLeaf ==> AllSized(p.leafCell))
    && (!p.isLeaf ==> p.fileOffset < TWO_64
                      && forall i {:trigger p.internalCell[i]} | 0 <= i < |p.internalCell| :: p.internalCell[i].fileOffset < TWO_64)
  }

  // ---------- Round trips of the lists ----------

  lemma Regroup(a: Bytes, b: Bytes, c: Bytes)
    ensures (a + b) + c == a + (b + c)
    ensures (a + b + c)[..|a|] == a && (a + b + c)[|a|..] == b + c
  {}

  lemma {:induction false} OffsetsRoundTrip(offsets: seq<nat>, rest: Bytes)
    requires forall i {:trigger offsets[i]} | 0 <= i < |offsets| :: offsets[i] < TWO_16
    ensures |OffsetBytes(offsets)| == 2 * |offsets|
    ensures ReadOffsets(OffsetBytes(offsets) + rest, |offsets|) == Some(Reading(offsets, rest))
  {
    hide LE, FromLE;
    if offsets == [] {
      assert OffsetBytes(offsets) + rest == rest;
    } else {
      OffsetsRoundTrip(offsets[1..], rest);
      OneOffset(offsets, rest);
    }
  }

  lemma OneOffset(offsets: seq<nat>, rest: Bytes)
    requires offsets != [] && offsets[0] < TWO_16
    requires ReadOffsets(OffsetBytes(offsets[1..]) + rest, |offsets| - 1) == Some(Reading(offsets[1..], rest))
    ensures ReadOffsets(OffsetBytes(offsets) + rest, |offsets|) == Some(Reading(offsets, rest))
  {
    hide LE, FromLE;
    Regroup(LE(2, offsets[0]), OffsetBytes(offsets[1..]), rest);
    Powers();
    ReadBack(2, offsets[0]);
    assert offsets == [offsets[0]] + offsets[1..];
  }

  /** Two fixed fields, two variable ones, and what follows. */
  lemma CellParts(a: Bytes, b: Bytes, k: Bytes, v: Bytes, rest: Bytes)
    requires |a| == 4 && |b| == 4
    ensures var s := a + b + k + v + rest;
            && s[..4] == a && s[4..8] == b && s[8..8 + |k|] == k && s[8 + |k|..8 + |k| + |v|] == v && s[8 + |k| + |v|..] == rest
  {
    var s := a + b + k + v + rest;
    assert s == a + (b + (k + (v + rest)));
  }

  lemma LeafCellRoundTrip(c: LeafCell, rest: Bytes)
    requires SizesOK(c) && |LeafCellBytes(c)| < TWO_32
    ensures ReadLeafCell(LeafCellBytes(c) + rest) == Some(Reading(c, rest))
    ensures |LeafCellBytes(c)| >= 8
  {
    hide LE, FromLE;
    CellParts(LE(4, |c.key|), LE(4, |c.val|), c.key, c.val, rest);
    Powers();
    ReadBack(4, |c.key|);
    ReadBack(4, |c.val|);
  }

  lemma {:induction false} LeafCellsRoundTrip(cells: seq<LeafCell>, rest: Bytes)
    requires |LeafCellsBytes(cells)| < TWO_32 && AllSized(cells)
    ensures ReadLeafCells(LeafCellsBytes(cells) + rest, |cells|) == Some(Reading(cells, rest))
    ensures |LeafCellsBytes(cells)| >= 8 * |cells|
  {
    hide ReadLeafCell, LeafCellBytes;
    if cells == [] {
      assert LeafCellsBytes(cells) + rest == rest;
    } else {
      var tail := LeafCellsBytes(cells[1..]);
      Regroup(LeafCellBytes(cells[0]), tail, rest);
      LeafCellsRoundTrip(cells[1..], rest);
      LeafCellRoundTrip(cells[0], tail + rest);
      assert cells == [cells[0]] + cells[1..];
    }
  }

  lemma InternalCellRoundTrip(c: InternalCell, rest: Bytes)
    requires c.fileOffset < TWO_64 && |InternalCellBytes(c)| < TWO_32
    ensures ReadInternalCell(InternalCellBytes(c) + rest) == Some(Reading(c, rest))
    ensures |InternalCellBytes(c)| >= 12
  {
    hide LE, FromLE;
    var b, k := InternalCellBytes(c) + rest, |c.key|;
    Regroup(LE(4, k) + c.key, LE(8, c.fileOffset), rest);
    Regroup(LE(4, k), c.key, LE(8, c.fileOffset) + rest);
    assert b[..4] == LE(4, k);
    assert b[4..4 + k] == c.key;
    assert b[4 + k..4 + k + 8] == LE(8, c.fileOffset);
    assert b[4 + k + 8..] == rest;
    Powers();
    ReadBack(4, k);
    ReadBack(8, c.fileOffset);
  }

  lemma {:induction false} InternalCellsRoundTrip(cells: seq<InternalCell>, rest: Bytes)
    requires |InternalCellsBytes(cells)| < TWO_32 && forall i {:trigger cells[i]} | 0 <= i < |cells| :: cells[i].fileOffset < TWO_64
    ensures ReadInternalCells(InternalCellsBytes(cells) + rest, |cells|) == Some(Reading(cells, rest))
    ensures |InternalCellsBytes(cells)| >= 12 * |cells|
  {
    hide ReadInternalCell, InternalCellBytes;
    if cells == [] {
      assert InternalCellsBytes(cells) + rest == rest;
    } else {
      var tail := InternalCellsBytes(cells[1..]);
      Regroup(InternalCellBytes(cells[0]), tail, rest);
      InternalCellsRoundTrip(cells[1..], rest);
      InternalCellRoundTrip(cells[0], tail + rest);
      assert cells == [cells[0]] + cells[1..];
    }
  }

  // ---------- Round trips of the pages ----------

  /** What decoding a page gives: the same kind and offsets, with the cells in the order the offsets
      listed them. */
  function Reordered(p: Page): Page
    requires InRange(p)
  {
    if p.isLeaf then Page(true, 0, p.offsets, |p.offsets|, [], LiveLeafCells(p))
    else Page(false, p.fileOffset, p.offsets, |p.offsets|, LiveInternalCells(p), [])
  }

  lemma FourParts(a: Bytes, b: Bytes, c: Bytes, rest: Bytes)
    ensures (a + b + c + rest)[..|a|] == a && (a + b + c + rest)[|a|..] == b + (c + rest)
  {}

  lemma FiveParts(a: Bytes, b: Bytes, c: Bytes, d: Bytes, rest: Bytes)
    ensures var s := a + b + c + d + rest;
            s[..|a|] == a && s[|a|..|a| + |b|] == b && s[|a| + |b|..] == c + (d + rest)
  {
    var s := a + b + c + d + rest;
    assert s == a + (b + (c + (d + rest)));
  }

  lemma LeafRoundTrip(p: Page, rest: Bytes)
    requires Storable(p) && p.isLeaf && |Body(p)| < TWO_16
    ensures DecodeLeaf(LE(2, |p.offsets| % TWO_16) + OffsetBytes(p.offsets) + LeafCellsBytes(LiveLeafCells(p)) + rest) == Ok(Reordered(p))
  {
    hide LE, FromLE, ReadOffsets, ReadLeafCells, OffsetBytes, LeafCellsBytes;
    var n, cells := |p.offsets|, LeafCellsBytes(LiveLeafCells(p));
    OffsetsRoundTrip(p.offsets, cells + rest);
    LeafCellsRoundTrip(LiveLeafCells(p), rest);
    FourParts(LE(2, n), OffsetBytes(p.offsets), cells, rest);
    Powers();
    ReadBack(2, n);
  }

  lemma InternalRoundTrip(p: Page, rest: Bytes)
    requires Storable(p) && !p.isLeaf && |Body(p)| < TWO_16
    ensures DecodeInternal(LE(8, p.fileOffset % TWO_64) + LE(4, |p.offsets| % TWO_32) + OffsetBytes(p.offsets)
                           + InternalCellsBytes(LiveInternalCells(p)) + rest) == Ok(Reordered(p))
  {
    hide LE, FromLE, ReadOffsets, ReadInternalCells, OffsetBytes, InternalCellsBytes;
    var n, cells := |p.offsets|, InternalCellsBytes(LiveInternalCells(p));
    OffsetsRoundTrip(p.offsets, cells + rest);
    InternalCellsRoundTrip(LiveInternalCells(p), rest);
    FiveParts(LE(8, p.fileOffset), LE(4, n), OffsetBytes(p.offsets), cells, rest);
    Powers();
    ReadBack(8, p.fileOffset);
    ReadBack(4, n);
  }

  /** A page is encoded exactly when its body leaves room for the free-size field; the result is one
      page long and decodes to the same kind, offsets and live cells, the cells in offset order. */
  lemma PageRoundTrip(p: Page)
    requires Storable(p)
    ensures Encode(p).Ok? <==> |Body(p)| + 2 <= 4096
    ensures Encode(p).Ok? ==> |Encode(p).value| == 4096 && Decode(Encode(p).value) == Ok(Reordered(p))
  {
    hide LE, DecodeLeaf, DecodeInternal, OffsetBytes, LeafCellsBytes, InternalCellsBytes, Reordered;
    if Encode(p).Ok? {
      var free := PAGE_SIZE - |Body(p)| - 2;
      var rest := LE(2, free) + seq(free, _ => 0);
      var b := Encode(p).value;
      assert b == Body(p) + rest;
      if p.isLeaf {
        LeafRoundTrip(p, rest);
        assert b[1..] == LE(2, |p.offsets| % TWO_16) + OffsetBytes(p.offsets) + LeafCellsBytes(LiveLeafCells(p)) + rest;
      } else {
        InternalRoundTrip(p, rest);
        assert b[1..] == LE(8, p.fileOffset % TWO_64) + LE(4, |p.offsets| % TWO_32) + OffsetBytes(p.offsets)
                         + InternalCellsBytes(LiveInternalCells(p)) + rest;
      }
    }
  }

  /** The page lists the same live cells in the same order. */
  ghost predicate SameLive(d: Page, p: Page)
    requires InRange(p)
  {
    && d.isLeaf == p.isLeaf && InRange(d)
    && if p.isLeaf then LiveLeafCells(d) == LiveLeafCells(p) else LiveInternalCells(d) == LiveInternalCells(p)
  }

  /** No cell is listed twice, as on every page whose keys are in strict order. */
  ghost predicate LiveDistinct(p: Page)
    requires InRange(p)
  {
    forall i, j {:trigger p.offsets[i], p.offsets[j]} | 0 <= i < j < |p.offsets| ::
      if p.isLeaf then p.leafCell[p.offsets[i]] != p.leafCell[p.offsets[j]]
      else p.internalCell[p.offsets[i]] != p.internalCell[p.offsets[j]]
  }

  lemma SortedIsDistinct(p: Page)
    requires InRange(p) && Sorted(Keys(p))
    ensures LiveDistinct(p)
  {
    hide Less;
    Order();
    forall i, j {:trigger p.offsets[i], p.offsets[j]} | 0 <= i < j < |p.offsets| ensures CellKey(p, p.offsets[i]) != CellKey(p, p.offsets[j]) {
      assert Less(Keys(p)[i], Keys(p)[j]);
    }
  }

  lemma ReorderedIsSameIff(p: Page)
    requires InRange(p) && LiveDistinct(p)
    ensures SameLive(Reordered(p), p) <==> Identity(p.offsets)
  {
    var d := Reordered(p);
    if Identity(p.offsets) {
      if p.isLeaf {
        assert LiveLeafCells(d) == LiveLeafCells(p);
      } else {
        assert LiveInternalCells(d) == LiveInternalCells(p);
      }
    }
    if SameLive(d, p) {
      forall i {:trigger p.offsets[i]} | 0 <= i < |p.offsets| ensures p.offsets[i] == i {
        var o := p.offsets[i];
        assert d.offsets[i] == o;
        if p.isLeaf {
          assert LiveLeafCells(d)[i] == d.leafCell[o] == p.leafCell[p.offsets[o]] && LiveLeafCells(p)[i] == p.leafCell[o];
        } else {
          assert LiveInternalCells(d)[i] == d.internalCell[o] == p.internalCell[p.offsets[o]] && LiveInternalCells(p)[i] == p.internalCell[o];
        }
      }
    }
  }

  /** A page, leaf or internal, comes back from disk with the same live cells in the same order exactly when
      its offsets were 0, 1, 2 and so on, as on a fresh split page: the cells are written in offset order
      but the offsets are not rewritten. */
  lemma LiveContentsSurviveIff(p: Page)
    requires Storable(p) && Encode(p).Ok? && LiveDistinct(p)
    ensures Decode(Encode(p).value).Ok?
    ensures SameLive(Decode(Encode(p).value).value, p) <==> Identity(p.offsets)
  {
    hide Encode, Decode, Reordered;
    PageRoundTrip(p);
    ReorderedIsSameIff(p);
  }

  lemma TwoCellBody(p: Page, v: Bytes, w: Bytes)
    requires p.isLeaf && p.offsets == [1, 0] && p.leafCell == [NewLeafCell([98], v), NewLeafCell([97], w)]
    ensures InRange(p) && |Body(p)| == 25 + |v| + |w|
  {
    hide LE;
    var cells := LiveLeafCells(p);
    assert cells == [p.leafCell[1], p.leafCell[0]];
    assert cells[1..] == [cells[1]];
    assert LeafCellsBytes([cells[1]]) == LeafCellBytes(cells[1]) + LeafCellsBytes([]);
    assert p.offsets[1..] == [0];
    assert OffsetBytes([0]) == LE(2, 0) + OffsetBytes([]);
  }

  /** Two keys inserted in descending order are enough to lose the order on disk. */
  lemma DescendingInsertsAreScrambled(v: Bytes, w: Bytes)
    ensures var p := InsertLeafCell(InsertLeafCell(BLANK.(isLeaf := true), 0, [98], v), 0, [97], w);
            && Storable(p) && Sorted(Keys(p)) && p.offsets == [1, 0]
            && (|v| + |w| <= 4069 ==> Encode(p).Ok?)
            && (Encode(p).Ok? ==> Decode(Encode(p).value).Ok? && !SameLive(Decode(Encode(p).value).value, p))
  {
    hide Decode, LE;
    var p := InsertLeafCell(InsertLeafCell(BLANK.(isLeaf := true), 0, [98], v), 0, [97], w);
    assert p.offsets == [1, 0];
    assert Keys(p) == [[97], [98]];
    assert Less([97], [98]);
    TwoCellBody(p, v, w);
    if Encode(p).Ok? {
      SortedIsDistinct(p);
      LiveContentsSurviveIff(p);
      assert p.offsets[0] == 1;
    }
  }

  lemma LeafBody(p: Page)
    requires p.isLeaf && p.offsets == [0] && p.leafCell == [NewLeafCell([107], [118])]
    ensures InRange(p) && Body(p) == [1,  1, 0,  0, 0,  1, 0, 0, 0,  1, 0, 0, 0,  107,  118]
  {
    hide LE;
    LittleEndian(0);
    LittleEndian(1);
    var cells := LiveLeafCells(p);
    assert cells == p.leafCell;
    assert OffsetBytes([0]) == LE(2, 0) + OffsetBytes([]);
    assert LeafCellsBytes(cells) == LeafCellBytes(cells[0]) + LeafCellsBytes([]);
  }

  /** A leaf with one cell, key "k" and value "v", byte by byte: kind, count, offset, the two sizes, key and
      value, 4079 free bytes, and that many zeros. */
  lemma LeafBytes()
    ensures var p := InsertLeafCell(BLANK.(isLeaf := true), 0, [107], [118]);
            InRange(p) && Encode(p) == Ok([1,  1, 0,  0, 0,  1, 0, 0, 0,  1, 0, 0, 0,  107,  118,  239, 15] + seq(4079, _ => 0))
  {
    var p := InsertLeafCell(BLANK.(isLeaf := true), 0, [107], [118]);
    LeafBody(p);
    LittleEndian(4079);
    hide Body, LE;
    assert [1,  1, 0,  0, 0,  1, 0, 0, 0,  1, 0, 0, 0,  107,  118] + [239, 15] == [1,  1, 0,  0, 0,  1, 0, 0, 0,  1, 0, 0, 0,  107,  118,  239, 15];
    assert Encode(p).value == [1,  1, 0,  0, 0,  1, 0, 0, 0,  1, 0, 0, 0,  107,  118] + [239, 15] + seq(4079, _ => 0);
  }

  // ---------- The loops ----------

  method WriteOffsets(offsets: seq<nat>) returns (buf: Bytes)
    ensures buf == OffsetBytes(offsets)
  {
    hide LE;
    buf := [];
    for i := 0 to |offsets|
      invariant buf + OffsetBytes(offsets[i..]) == OffsetBytes(offsets)
    {
      ghost var before := buf;
      buf := buf + LE(2, offsets[i] % TWO_16);
      assert offsets[i..][1..] == offsets[i + 1..];
      assert OffsetBytes(offsets[i..]) == LE(2, offsets[i] % TWO_16) + OffsetBytes(offsets[i + 1..]);
      assert buf + OffsetBytes(offsets[i + 1..]) == before + OffsetBytes(offsets[i..]);
    }
    assert offsets[|offsets|..] == [];
  }

  method WriteLeafCells(p: Page) returns (buf: Bytes)
    requires p.isLeaf && InRange(p)
    ensures buf == LeafCellsBytes(LiveLeafCells(p))
  {
    hide LE;
    ghost var cells := LiveLeafCells(p);
    buf := [];
    for i := 0 to |p.offsets|
      invariant buf + LeafCellsBytes(cells[i..]) == LeafCellsBytes(cells)
    {
      var c := p.leafCell[p.offsets[i]];
      ghost var before := buf;
      buf := buf + (LE(4, c.keySize % TWO_32) + LE(4, c.valSize % TWO_32) + c.key + c.val);
      assert cells[i..][1..] == cells[i + 1..];
      assert LeafCellsBytes(cells[i..]) == LeafCellBytes(c) + LeafCellsBytes(cells[i + 1..]);
      assert buf + LeafCellsBytes(cells[i + 1..]) == before + LeafCellsBytes(cells[i..]);
    }
  }

  method WriteInternalCells(p: Page) returns (buf: Bytes)
    requires !p.isLeaf && InRange(p)
    ensures buf == InternalCellsBytes(LiveInternalCells(p))
  {
    hide LE;
    ghost var cells := LiveInternalCells(p);
    buf := [];
    for i := 0 to |p.offsets|
      invariant buf + InternalCellsBytes(cells[i..]) == InternalCellsBytes(cells)
    {
      var c := p.internalCell[p.offsets[i]];
      ghost var before := buf;
      buf := buf + (LE(4, |c.key| % TWO_32) + c.key + LE(8, c.fileOffset % TWO_64));
      assert cells[i..][1..] == cells[i + 1..];
      assert InternalCellsBytes(cells[i..]) == InternalCellBytes(c) + InternalCellsBytes(cells[i + 1..]);
      assert buf + InternalCellsBytes(cells[i + 1..]) == before + InternalCellsBytes(cells[i..]);
    }
  }

  method EncodePage(p: Page) returns (r: Result<Bytes>)
    requires InRange(p)
    ensures r == Encode(p)
    ensures r.Ok? ==> |r.value| == PAGE_SIZE
  {
    hide LE, OffsetBytes, LeafCellsBytes, InternalCellsBytes;
    var offsets := WriteOffsets(p.offsets);
    var buf: Bytes;
    if p.isLeaf {
      var cells := WriteLeafCells(p);
      buf := [LEAF_NODE] + LE(2, |p.offsets| % TWO_16) + offsets + cells;
    } else {
      var cells := WriteInternalCells(p);
      buf := [INTERNAL_NODE] + LE(8, p.fileOffset % TWO_64) + LE(4, |p.offsets| % TWO_32) + offsets + cells;
    }
    assert buf == Body(p);
    if |buf| + 2 > PAGE_SIZE {
      return Err;
    }
    var free := PAGE_SIZE - |buf| - 2;
    return Ok(buf + LE(2, free) + seq(free, _ => 0));
  }

  method ReadOffsetList(b: Bytes, n: nat) returns (r: Option<Reading<seq<nat>>>)
    ensures r == ReadOffsets(b, n)
  {
    hide FromLE;
    var offsets: seq<nat>, rest := [], b;
    for i := 0 to n
      invariant ReadOffsets(b, n).Some? <==> ReadOffsets(rest, n - i).Some?
      invariant ReadOffsets(b, n).Some? ==>
                  && ReadOffsets(b, n).value.value == offsets + ReadOffsets(rest, n - i).value.value
                  && ReadOffsets(b, n).value.rest == ReadOffsets(rest, n - i).value.rest
    {
      if |rest| < 2 {
        return None;
      }
      offsets, rest := offsets + [FromLE(rest[..2])], rest[2..];
    }
    assert ReadOffsets(rest, 0) == Some(Reading([], rest));
    assert offsets + ReadOffsets(rest, 0).value.value == offsets;
    return Some(Reading(offsets, rest));
  }

  method ReadLeafCellList(b: Bytes, n: nat) returns (r: Option<Reading<seq<LeafCell>>>)
    ensures r == ReadLeafCells(b, n)
  {
    hide ReadLeafCell;
    var cells: seq<LeafCell>, rest := [], b;
    for i := 0 to n
      invariant ReadLeafCells(b, n).Some? <==> ReadLeafCells(rest, n - i).Some?
      invariant ReadLeafCells(b, n).Some? ==>
                  && ReadLeafCells(b, n).value.value == cells + ReadLeafCells(rest, n - i).value.value
                  && ReadLeafCells(b, n).value.rest == ReadLeafCells(rest, n - i).value.rest
    {
      var c := ReadLeafCell(rest);
      if c.None? {
        return None;
      }
      cells, rest := cells + [c.value.value], c.value.rest;
    }
    assert ReadLeafCells(rest, 0) == Some(Reading([], rest));
    assert cells + ReadLeafCells(rest, 0).value.value == cells;
    return Some(Reading(cells, rest));
  }

  method ReadInternalCellList(b: Bytes, n: nat) returns (r: Option<Reading<seq<InternalCell>>>)
    ensures r == ReadInternalCells(b, n)
  {
    hide ReadInternalCell;
    var cells: seq<InternalCell>, rest := [], b;
    for i := 0 to n
      invariant ReadInternalCells(b, n).Some? <==> ReadInternalCells(rest, n - i).Some?
      invariant ReadInternalCells(b, n).Some? ==>
                  && ReadInternalCells(b, n).value.value == cells + ReadInternalCells(rest, n - i).value.value
                  && ReadInternalCells(b, n).value.rest == ReadInternalCells(rest, n - i).value.rest
    {
      var c := ReadInternalCell(rest);
      if c.None? {
        return None;
      }
      cells, rest := cells + [c.value.value], c.value.rest;
    }
    assert ReadInternalCells(rest, 0) == Some(Reading([], rest));
    assert cells + ReadInternalCells(rest, 0).value.value == cells;
    return Some(Reading(cells, rest));
  }

  method DecodePage(data: Bytes) returns (r: Result<Page>)
    ensures r == Decode(data)
  {
    hide ReadOffsets, ReadLeafCells, ReadInternalCells, FromLE;
    if |data| == 0 {
      return Err;
    }
    var isLeaf, buf := data[0] == LEAF_NODE, data[1..];
    var header := if isLeaf then 2 else 12;
    if |buf| < header {
      return Err;
    }
    var n := if isLeaf then FromLE(buf[..2]) else FromLE(buf[8..12]);
    var offsets := ReadOffsetList(buf[header..], n);
    if offsets.None? {
      return Err;
    }
    if isLeaf {
      var cells := ReadLeafCellList(offsets.value.rest, n);
      return if cells.None? then Err else Ok(Page(true, 0, offsets.value.value, n, [], cells.value.value));
    } else {
      var cells := ReadInternalCellList(offsets.value.rest, n);
      return if cells.None? then Err else Ok(Page(false, FromLE(buf[..8]), offsets.value.value, n, cells.value.value, []));
    }
  }
}
