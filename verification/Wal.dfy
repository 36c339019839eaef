/** The write-ahead log of wal/wal.go: a stream of length-prefixed records and the object that appends
    to it. */
module Wal {
  import opened Types
  import opened Binary

  const HEADER := 28

  function CmdOf(l: Log): Cmd {
    if l.data.None? then Cmd([], [], [], 0) else l.data.value
  }

  /** What survives the file: a nil command comes back empty, and the request Id is not written. */
  function Stored(l: Log): Log {
    l.(data := Some(CmdOf(l).(requestId := 0)))
  }

  /** What Go's types guarantee, and lengths that fit their 32-bit field. */
  predicate Fits(l: Log) {
    && IsInt64(l.term) && IsInt64(l.id)
    && |CmdOf(l).key| < TWO_32 && |CmdOf(l).value| < TWO_32 && |CmdOf(l).op| < TWO_32
  }

  function Header(l: Log): (b: Bytes)
    ensures |b| == HEADER
  {
    var c := CmdOf(l);
    I64(l.term) + I64(l.id) + LE(4, |c.key| % TWO_32) + LE(4, |c.value| % TWO_32) + LE(4, |c.op| % TWO_32)
  }

  function EncodeOne(l: Log): Bytes {
    Header(l) + CmdOf(l).key + CmdOf(l).value + CmdOf(l).op
  }

  function Encode(ls: seq<Log>): Bytes {
    if ls == [] then [] else EncodeOne(ls[0]) + Encode(ls[1..])
  }

  function KeyLen(b: Bytes): nat requires |b| >= HEADER { FromLE(b[16..20]) }
  function ValueLen(b: Bytes): nat requires |b| >= HEADER { FromLE(b[20..24]) }
  function OpLen(b: Bytes): nat requires |b| >= HEADER { FromLE(b[24..28]) }

  /** One record off the front, or None if the bytes end before it does. */
  function DecodeOne(b: Bytes): (r: Option<(Log, Bytes)>)
    ensures r.Some? ==> |r.value.1| < |b|
  {
    if |b| < HEADER then None else
    var v := HEADER + KeyLen(b);
    var o := v + ValueLen(b);
    var e := o + OpLen(b);
    if |b| < e then None
    else Some((Log(FromI64(b[0..8]), FromI64(b[8..16]), Some(Cmd(b[o..e], b[HEADER..v], b[v..o], 0))), b[e..]))
  }

  /** Reading stops cleanly only at a record boundary. */
  function Decode(b: Bytes): Result<seq<Log>>
    decreases |b|
  {
    if b == [] then Ok([]) else
    var r := DecodeOne(b);
    if r.None? then Err else
    var rest := Decode(r.value.1);
    if rest.Err? then Err else Ok([r.value.0] + rest.value)
  }

  function StoredAll(ls: seq<Log>): seq<Log> {
    seq(|ls|, i requires 0 <= i < |ls| => Stored(ls[i]))
  }

  ghost predicate AllFit(ls: seq<Log>) {
    forall i {:trigger ls[i]} | 0 <= i < |ls| :: Fits(ls[i])
  }

  // ---------- One record ----------

  lemma HeaderFields(l: Log, tail: Bytes)
    requires Fits(l)
    ensures var b := Header(l) + tail;
            && FromI64(b[0..8]) == l.term && FromI64(b[8..16]) == l.id
            && KeyLen(b) == |CmdOf(l).key| && ValueLen(b) == |CmdOf(l).value| && OpLen(b) == |CmdOf(l).op|
  {
    hide I64, FromI64, LE, FromLE;
    var b, c := Header(l) + tail, CmdOf(l);
    assert b[0..8] == I64(l.term) && b[8..16] == I64(l.id);
    assert b[16..20] == LE(4, |c.key|) && b[20..24] == LE(4, |c.value|) && b[24..28] == LE(4, |c.op|);
    Int64RoundTrip(l.term);
    Int64RoundTrip(l.id);
    Powers();
    ReadBack(4, |c.key|);
    ReadBack(4, |c.value|);
    ReadBack(4, |c.op|);
  }

  lemma RecordRoundTrip(l: Log, rest: Bytes)
    requires Fits(l)
    ensures DecodeOne(EncodeOne(l) + rest) == Some((Stored(l), rest))
  {
    hide Header, FromI64, FromLE;
    var c := CmdOf(l);
    var b := EncodeOne(l) + rest;
    assert b == Header(l) + (c.key + c.value + c.op + rest);
    HeaderFields(l, c.key + c.value + c.op + rest);
    var v := HEADER + |c.key|;
    var o := v + |c.value|;
    var e := o + |c.op|;
    assert b[HEADER..v] == c.key && b[v..o] == c.value && b[o..e] == c.op && b[e..] == rest;
  }

  lemma DecodedFields(b: Bytes)
    requires DecodeOne(b).Some?
    ensures var l := DecodeOne(b).value.0;
            && Fits(l) && Stored(l) == l
            && Header(l) == b[..HEADER]
  {
    hide FromLE, LE, Pow256;
    var l := DecodeOne(b).value.0;
    BytesRoundTrip(b[0..8]);
    BytesRoundTrip(b[8..16]);
    Powers();
    FromLERange(b[16..20]);
    FromLERange(b[20..24]);
    FromLERange(b[24..28]);
    WriteBack(b[16..20]);
    WriteBack(b[20..24]);
    WriteBack(b[24..28]);
    assert b[..HEADER] == b[0..8] + b[8..16] + b[16..20] + b[20..24] + b[24..28];
  }

  /** Whatever decodes is the encoding of what it decodes to. */
  lemma RecordIsCanonical(b: Bytes)
    requires DecodeOne(b).Some?
    ensures var (l, rest) := DecodeOne(b).value; Fits(l) && Stored(l) == l && b == EncodeOne(l) + rest
  {
    hide Header, FromI64, FromLE;
    var (l, rest) := DecodeOne(b).value;
    DecodedFields(b);
    var c := CmdOf(l);
    var v := HEADER + |c.key|;
    var o := v + |c.value|;
    var e := o + |c.op|;
    assert b == b[..HEADER] + b[HEADER..v] + b[v..o] + b[o..e] + b[e..];
  }

  /** A record cut short does not decode. */
  lemma CutRecordFails(l: Log, n: nat)
    requires Fits(l) && n < |EncodeOne(l)|
    ensures DecodeOne(EncodeOne(l)[..n]).None?
  {
    hide Header, FromI64, FromLE;
    var b, c := EncodeOne(l)[..n], CmdOf(l);
    if n >= HEADER {
      var tail := (c.key + c.value + c.op)[..n - HEADER];
      assert b == Header(l) + tail;
      HeaderFields(l, tail);
    }
  }

  lemma SmallFields(x: nat)
    requires x < 256
    ensures LE(4, x) == [x, 0, 0, 0] && I64(x) == [x, 0, 0, 0, 0, 0, 0, 0]
  {
    LittleEndian(x);
    FourBytes(0);
    assert x % TWO_64 == x;
  }

  /** One record byte by byte: term 1, Id 2, the three lengths, key "k", value "v", operation "PUT". */
  lemma RecordBytes(id: nat)
    ensures EncodeOne(Log(1, 2, Some(Cmd(PUT, [107], [118], id)))) ==
            [1, 0, 0, 0, 0, 0, 0, 0,  2, 0, 0, 0, 0, 0, 0, 0,  1, 0, 0, 0,  1, 0, 0, 0,  3, 0, 0, 0,  107,  118,  80, 85, 84]
  {
    hide I64, LE;
    SmallFields(1);
    SmallFields(2);
    SmallFields(3);
  }

  // ---------- The whole file ----------

  /** Reading the file back gives every entry that was appended, in order, request Ids aside. */
  lemma {:induction false} FileRoundTrip(ls: seq<Log>)
    requires AllFit(ls)
    ensures Decode(Encode(ls)) == Ok(StoredAll(ls))
  {
    hide Header, DecodeOne, Stored, Fits;
    if ls != [] {
      assert Fits(ls[0]) && |EncodeOne(ls[0])| >= HEADER;
      hide EncodeOne;
      FileRoundTrip(ls[1..]);
      RecordRoundTrip(ls[0], Encode(ls[1..]));
      assert StoredAll(ls) == [Stored(ls[0])] + StoredAll(ls[1..]);
    } else {
      assert StoredAll(ls) == [];
    }
  }

  /** A file decodes to a list exactly when it is the encoding of that list. */
  lemma {:induction false} DecodesIffEncoding(b: Bytes, ls: seq<Log>)
    ensures Decode(b) == Ok(ls) <==> AllFit(ls) && StoredAll(ls) == ls && b == Encode(ls)
    decreases |b|
  {
    if AllFit(ls) && StoredAll(ls) == ls && b == Encode(ls) {
      FileRoundTrip(ls);
    }
    if Decode(b) == Ok(ls) && b != [] {
      RecordIsCanonical(b);
      DecodesIffEncoding(DecodeOne(b).value.1, ls[1..]);
      assert ls == [ls[0]] + ls[1..];
      assert AllFit(ls);
      forall i | 0 <= i < |ls| ensures Stored(ls[i]) == ls[i] {
        assert i > 0 ==> StoredAll(ls[1..])[i - 1] == ls[1..][i - 1];
      }
    }
  }

  lemma {:induction false} EncodeConcat(a: seq<Log>, b: seq<Log>)
    ensures Encode(a + b) == Encode(a) + Encode(b)
  {
    hide EncodeOne;
    if a == [] {
      assert a + b == b;
    } else {
      EncodeConcat(a[1..], b);
      assert (a + b)[1..] == a[1..] + b;
    }
  }

  /** A file cut after n bytes decodes exactly when the cut is at the end of some record, and then to
      the entries before the cut. */
  lemma {:induction false} CutFile(ls: seq<Log>, n: nat)
    requires AllFit(ls) && n <= |Encode(ls)|
    ensures Decode(Encode(ls)[..n]).Ok? <==> exists k :: 0 <= k <= |ls| && n == |Encode(ls[..k])|
    ensures forall k | 0 <= k <= |ls| && n == |Encode(ls[..k])| :: Decode(Encode(ls)[..n]) == Ok(StoredAll(ls[..k]))
  {
    forall k | 0 <= k <= |ls| && n == |Encode(ls[..k])| ensures Decode(Encode(ls)[..n]) == Ok(StoredAll(ls[..k])) {
      assert ls == ls[..k] + ls[k..];
      EncodeConcat(ls[..k], ls[k..]);
      assert Encode(ls)[..n] == Encode(ls[..k]);
      FileRoundTrip(ls[..k]);
    }
    if Decode(Encode(ls)[..n]).Ok? {
      var k := LastWholeRecord(ls, n);
    }
  }

  lemma {:induction false} LastWholeRecord(ls: seq<Log>, n: nat) returns (k: nat)
    requires AllFit(ls) && n <= |Encode(ls)| && Decode(Encode(ls)[..n]).Ok?
    ensures k <= |ls| && n == |Encode(ls[..k])|
  {
    hide EncodeOne, DecodeOne, Fits;
    if n == 0 {
      k := 0;
    } else {
      assert Fits(ls[0]);
      var first := EncodeOne(ls[0]);
      if n < |first| {
        assert Encode(ls)[..n] == first[..n];
        CutRecordFails(ls[0], n);
        assert false;
      }
      var tail := Encode(ls[1..])[..n - |first|];
      assert Encode(ls)[..n] == first + tail;
      RecordRoundTrip(ls[0], tail);
      var k' := LastWholeRecord(ls[1..], n - |first|);
      k := k' + 1;
      assert ls[..k][0] == ls[0] && ls[..k][1..] == ls[1..][..k'];
    }
  }

  // ---------- The loops and the object ----------

  /** The eight writes of one record. */
  method EncodeRecord(log: Log) returns (buf: Bytes)
    ensures buf == EncodeOne(log)
  {
    var c := CmdOf(log);
    buf := I64(log.term);
    buf := buf + I64(log.id);
    buf := buf + LE(4, |c.key| % TWO_32);
    buf := buf + LE(4, |c.value| % TWO_32);
    buf := buf + LE(4, |c.op| % TWO_32);
    buf := buf + c.key;
    buf := buf + c.value;
    buf := buf + c.op;
  }

  method EncodeLog(logs: seq<Log>) returns (buf: Bytes)
    ensures buf == Encode(logs)
  {
    hide EncodeOne;
    buf := [];
    for i := 0 to |logs|
      invariant buf == Encode(logs[..i])
    {
      var record := EncodeRecord(logs[i]);
      buf := buf + record;
      EncodeConcat(logs[..i], [logs[i]]);
      assert logs[..i + 1] == logs[..i] + [logs[i]];
      assert Encode([logs[i]]) == EncodeOne(logs[i]) + [];
    }
    assert logs[..|logs|] == logs;
  }

  method DecodeLogs(file: Bytes) returns (r: Result<seq<Log>>)
    ensures r == Decode(file)
  {
    hide DecodeOne;
    var logs: seq<Log>, rest := [], file;
    while rest != []
      invariant Decode(file).Ok? <==> Decode(rest).Ok?
      invariant Decode(file).Ok? ==> Decode(file).value == logs + Decode(rest).value
      decreases |rest|
    {
      var one := DecodeOne(rest);
      if one.None? {
        return Err;
      }
      logs, rest := logs + [one.value.0], one.value.1;
    }
    assert Decode(rest) == Ok([]);
    assert logs + Decode(rest).value == logs;
    return Ok(logs);
  }

  /** The in-memory list and the file move together. */
  class LogManager {
    var logs: seq<Log>
    var file: Bytes

    ghost predicate Synced()
      reads this
    {
      AllFit(logs) && file == Encode(logs)
    }

    /** Opening a fresh file, or one that decodes. */
    constructor (contents: Bytes)
      requires Decode(contents).Ok?
      ensures Synced() && file == contents && Decode(contents) == Ok(logs)
    {
      logs, file := [], contents;
      new;
      if |contents| > 0 {
        var r := DecodeLogs(contents);
        logs := r.value;
      }
      DecodesIffEncoding(contents, logs);
    }

    method Append(log: Log)
      modifies this
      ensures logs == old(logs) + [log] && file == old(file) + EncodeOne(log)
      ensures old(Synced()) && Fits(log) ==> Synced()
    {
      var data := EncodeLog([log]);
      file := file + data;
      logs := logs + [log];
      EncodeConcat(old(logs), [log]);
    }

    function GetLog(index: int): (r: Option<Log>)
      reads this
      ensures r.Some? <==> 1 <= index <= |logs|
      ensures r.Some? ==> r.value == logs[index - 1]
    {
      var sliceIndex := index - 1;
      if sliceIndex < 0 || sliceIndex >= |logs| then None else Some(logs[sliceIndex])
    }

    method GetLogsAfter(index: int) returns (r: seq<Log>)
      ensures r == LogsFrom(logs, index)
    {
      var sliceIndex := if index - 1 > 0 then index - 1 else 0;
      if sliceIndex >= |logs| {
        return [];
      }
      return logs[sliceIndex..];
    }
  }

  /** The entries at list positions index - 1 and up. */
  function LogsFrom(logs: seq<Log>, index: int): (r: seq<Log>) {
    var i := if index > 1 then index - 1 else 0;
    if i < |logs| then logs[i..] else []
  }
}
