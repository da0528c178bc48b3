// Listing the tags: the server fills a page with as many rows as fit, in order of
// instance id, and the client asks on from behind the last id it has seen.
module Browse {
  import opened Sequences
  import opened TagServices
  import opened Fragments
  import opened FrameCodec

  datatype Row = Row(id: nat, name: seq<bv8>, symbolType: nat, elements: nat)

  type Table = map<nat, Row>

  // The rows with ids from the start on, ascending.
  function Ascending(t: Table, start: nat, end: nat): (r: seq<Row>)
    requires start <= end
    decreases end - start
  {
    if start == end then []
    else (if start in t then [t[start]] else []) + Ascending(t, start + 1, end)
  }

  const IDS: nat := 0x1_0000

  // ---- One row ----

  function Attribute(row: Row, attribute: nat): seq<bv8> {
    match attribute
    case 1 => Out16(|row.name|) + row.name
    case 2 => Out16(row.symbolType)
    case 3 => Out32(0)
    case 5 => Out32(0)
    case 6 => Out32(0)
    case 8 => Out32(if row.elements > 1 then row.elements else 0) + Out32(0) + Out32(0)
    case 10 => [0x03]
    case _ => []
  }

  function Attributes(row: Row, requested: seq<nat>): seq<bv8>
    decreases |requested|
  {
    if requested == [] then [] else Attribute(row, requested[0]) + Attributes(row, requested[1..])
  }

  function RowBytes(row: Row, requested: seq<nat>): (r: seq<bv8>)
    ensures |r| >= 4
  {
    Out32(row.id) + Attributes(row, requested)
  }

  function RowsBytes(rows: seq<Row>, requested: seq<nat>): seq<bv8>
    decreases |rows|
  {
    if rows == [] then [] else RowBytes(rows[0], requested) + RowsBytes(rows[1..], requested)
  }

  // ---- One page ----

  const PAGE: nat := 480
  const BUFFER: nat := 4096

  // The first row of a page may fill the whole buffer, the others only the page.
  predicate RowFits(row: Row, requested: seq<nat>, offset: nat, first: bool) {
    offset + |RowBytes(row, requested)| <= if first then BUFFER else PAGE
  }

  function Packed(rows: seq<Row>, requested: seq<nat>, offset: nat, first: bool): (n: nat)
    ensures n <= |rows|
    decreases |rows|
  {
    if rows == [] || !RowFits(rows[0], requested, offset, first) then 0
    else 1 + Packed(rows[1..], requested, offset + |RowBytes(rows[0], requested)|, false)
  }

  function Page(rows: seq<Row>, requested: seq<nat>): Reply {
    var n := Packed(rows, requested, 0, true);
    var data := RowsBytes(rows[..n], requested);
    if n < |rows| then More(data) else Done(data)
  }

  // ---- What the client reads ----

  datatype Info = Info(id: nat, name: seq<bv8>, symbolType: nat)

  function InfoOf(row: Row): Info { Info(row.id, row.name, row.symbolType) }

  function Infos(rows: seq<Row>): (r: seq<Info>)
    ensures |r| == |rows| && forall i :: 0 <= i < |rows| ==> r[i] == InfoOf(rows[i])
  {
    seq(|rows|, i requires 0 <= i < |rows| => InfoOf(rows[i]))
  }

  function ParseRows(d: seq<bv8>, off: nat): seq<Info>
    decreases |d| - off
  {
    if off + 6 >= |d| then []
    else
      var n := U16(d, off + 4);
      if off + 6 + n + 2 > |d| then []
      else [Info(U32(d, off), d[off + 6..off + 6 + n], U16(d, off + 6 + n))] + ParseRows(d, off + 8 + n)
  }

  // Name and type, which is what the client asks for.
  const NAME_AND_TYPE: seq<nat> := [1, 2]

  predicate RowOk(row: Row) { row.id < 0xFFFF && |row.name| <= BUFFER - 8 && row.symbolType < 0x1_0000 }

  lemma NameAndType(row: Row)
    ensures RowBytes(row, NAME_AND_TYPE) == Out32(row.id) + Out16(|row.name|) + row.name + Out16(row.symbolType)
  {
    hide Out16, Out32;
    assert NAME_AND_TYPE[1..] == [2] && NAME_AND_TYPE[1..][1..] == [];
    assert Attributes(row, [2]) == Attribute(row, 2) + Attributes(row, [2][1..]) == Out16(row.symbolType);
  }

  lemma RowRead(row: Row, d: seq<bv8>, off: nat)
    requires RowOk(row) && off + 8 + |row.name| <= |d|
    requires d[off..off + 8 + |row.name|] == RowBytes(row, NAME_AND_TYPE)
    ensures U32(d, off) == row.id && U16(d, off + 4) == |row.name|
    ensures d[off + 6..off + 6 + |row.name|] == row.name && U16(d, off + 6 + |row.name|) == row.symbolType
  {
    hide U16, U32, Out16, Out32;
    NameAndType(row);
    var n := |row.name|;
    var x := d[off..off + 8 + n];
    SliceOfSlice(d, off, off + 8 + n, 0, 4);
    SliceOfSlice(d, off, off + 8 + n, 4, 6);
    SliceOfSlice(d, off, off + 8 + n, 6, 6 + n);
    SliceOfSlice(d, off, off + 8 + n, 6 + n, 8 + n);
    assert x[0..4] == Out32(row.id) && x[4..6] == Out16(n) && x[6..6 + n] == row.name &&
      x[6 + n..8 + n] == Out16(row.symbolType);
    U32Out32(d, off, row.id);
    U16Out16(d, off + 4, n);
    U16Out16(d, off + 6 + n, row.symbolType);
  }

  lemma FirstRowRead(row: Row, rest: seq<bv8>, d: seq<bv8>, off: nat)
    requires RowOk(row) && off <= |d| && d[off..] == RowBytes(row, NAME_AND_TYPE) + rest
    ensures ParseRows(d, off) == [InfoOf(row)] + ParseRows(d, off + 8 + |row.name|)
    ensures off + 8 + |row.name| <= |d| && d[off + 8 + |row.name|..] == rest
  {
    hide U16, U32, RowBytes;
    var size := 8 + |row.name|;
    RowSize(row);
    var tail := d[off..];
    assert tail == d[off..|d|] && |tail| == size + |rest|;
    SliceOfSlice(d, off, |d|, 0, size);
    SliceOfSlice(d, off, |d|, size, |d| - off);
    assert tail[0..size] == RowBytes(row, NAME_AND_TYPE) && tail[size..|d| - off] == rest;
    assert d[off + size..|d|] == d[off + size..];
    RowRead(row, d, off);
  }

  predicate RowsOk(rows: seq<Row>) { forall r :: r in rows ==> RowOk(r) }

  lemma SomeOk(rows: seq<Row>, n: nat)
    requires RowsOk(rows) && n <= |rows|
    ensures RowsOk(rows[..n])
  {}

  lemma FirstOk(rows: seq<Row>)
    requires RowsOk(rows) && rows != []
    ensures RowOk(rows[0])
  {}

  lemma InfoIs(rows: seq<Row>, i: nat)
    requires i < |rows|
    ensures Infos(rows)[i].id == rows[i].id
  {}

  lemma TailOk(rows: seq<Row>)
    requires RowsOk(rows) && rows != []
    ensures RowOk(rows[0]) && RowsOk(rows[1..])
  {}

  lemma InfosStep(rows: seq<Row>)
    requires rows != []
    ensures Infos(rows) == [InfoOf(rows[0])] + Infos(rows[1..])
  {}

  lemma NothingRead(d: seq<bv8>, off: nat)
    requires off <= |d| && d[off..] == []
    ensures ParseRows(d, off) == []
  {}

  // The client reads from a page the rows the server put there.
  lemma {:induction false} RowsRead(rows: seq<Row>, d: seq<bv8>, off: nat)
    requires off <= |d| && d[off..] == RowsBytes(rows, NAME_AND_TYPE) && RowsOk(rows)
    ensures ParseRows(d, off) == Infos(rows)
    decreases |rows|
  {
    hide RowBytes, RowOk, RowsOk, ParseRows, InfoOf;
    if rows == [] {
      NothingRead(d, off);
    } else {
      TailOk(rows);
      FirstRowRead(rows[0], RowsBytes(rows[1..], NAME_AND_TYPE), d, off);
      RowsRead(rows[1..], d, off + 8 + |rows[0].name|);
      InfosStep(rows);
    }
  }

  lemma RowSize(row: Row)
    ensures |RowBytes(row, NAME_AND_TYPE)| == 8 + |row.name|
  {
    hide Out16, Out32;
    NameAndType(row);
  }

  // ---- The whole listing ----

  predicate TableOk(t: Table) { forall id :: id in t ==> t[id].id == id && RowOk(t[id]) }

  lemma {:induction false} AscendingRows(t: Table, start: nat, end: nat)
    requires start <= end && TableOk(t)
    ensures RowsOk(Ascending(t, start, end))
    ensures forall i :: 0 <= i < |Ascending(t, start, end)| ==> start <= Ascending(t, start, end)[i].id < end
    decreases end - start
  {
    if start < end { AscendingRows(t, start + 1, end); }
  }

  // Each row stands there, once, and the ids increase.
  lemma {:induction false} AscendingOnce(t: Table, start: nat, end: nat, id: nat)
    requires start <= id < end && TableOk(t)
    ensures id in t ==> t[id] in Ascending(t, start, end)
    ensures forall i, j :: 0 <= i < j < |Ascending(t, start, end)| ==>
      Ascending(t, start, end)[i].id < Ascending(t, start, end)[j].id
    decreases end - start
  {
    hide RowOk;
    AscendingRows(t, start + 1, end);
    if start < id {
      AscendingOnce(t, start + 1, end, id);
    } else if start + 1 < end {
      AscendingOnce(t, start + 1, end, start + 1);
    }
  }

  // What follows the first n rows is what starts behind the last of them.
  lemma {:induction false} Resumed(t: Table, start: nat, end: nat, n: nat)
    requires start <= end && TableOk(t) && 0 < n <= |Ascending(t, start, end)|
    ensures start <= Ascending(t, start, end)[n - 1].id < end
    ensures Ascending(t, start, end)[n..] == Ascending(t, Ascending(t, start, end)[n - 1].id + 1, end)
    decreases end - start
  {
    var all, rest := Ascending(t, start, end), Ascending(t, start + 1, end);
    if start !in t {
      Resumed(t, start + 1, end, n);
    } else {
      assert all == [t[start]] + rest;
      if n > 1 {
        Resumed(t, start + 1, end, n - 1);
        assert all[n..] == rest[n - 1..];
      } else {
        assert all[1..] == rest;
      }
    }
  }

  // A page is never empty while there is a row that fits the buffer.
  lemma PageProgress(rows: seq<Row>)
    requires rows != [] && RowOk(rows[0])
    ensures Packed(rows, NAME_AND_TYPE, 0, true) > 0
  {
    hide RowBytes;
    RowSize(rows[0]);
  }

  lemma {:induction false} PackedExact(rows: seq<Row>, requested: seq<nat>, offset: nat, first: bool)
    requires offset <= 480 || !first
    ensures
      var n := Packed(rows, requested, offset, first);
      var size := |RowsBytes(rows[..n], requested)|;
      (n > 0 ==> offset + size <= (if first && n == 1 then 4096 else 480)) &&
      (n < |rows| ==> offset + size + |RowBytes(rows[n], requested)| > (if first && n == 0 then 4096 else 480))
    decreases |rows|
  {
    hide RowBytes;
    if rows != [] && RowFits(rows[0], requested, offset, first) {
      var size := |RowBytes(rows[0], requested)|;
      var n := Packed(rows[1..], requested, offset + size, false);
      PackedExact(rows[1..], requested, offset + size, false);
      assert rows[..n + 1][1..] == rows[1..][..n] && rows[..n + 1][0] == rows[0];
    } else {
      assert rows[..0] == [];
    }
  }

  // A page holds the rows in order, of no more than 480 bytes together unless it is
  // one alone, and stops only where the next would not fit.
  lemma PageExact(rows: seq<Row>, requested: seq<nat>)
    ensures
      var n, r := Packed(rows, requested, 0, true), Page(rows, requested);
      !r.Fail? && r.data == RowsBytes(rows[..n], requested) && (r.Done? <==> n == |rows|) &&
      |r.data| <= (if n <= 1 then 4096 else 480) &&
      (r.More? ==> |r.data| + |RowBytes(rows[n], requested)| > (if n == 0 then 4096 else 480))
  {
    hide RowBytes, RowsBytes, Packed;
    PackedExact(rows, requested, 0, true);
    if Packed(rows, requested, 0, true) == 0 { NoRows(rows, requested); }
  }

  lemma NoRows(rows: seq<Row>, requested: seq<nat>)
    ensures RowsBytes(rows[..0], requested) == []
  {}

  // What each attribute contributes: name, type, three words that are not kept, the
  // dimensions of an array, and that it can be read and written.
  lemma AttributeRead(row: Row, attribute: nat)
    requires |row.name| < 0x1_0000 && row.symbolType < 0x1_0000 && row.elements < 0x1_0000_0000
    ensures
      var d := Attribute(row, attribute);
      if attribute == 1 then |d| == 2 + |row.name| && U16(d, 0) == |row.name| && d[2..] == row.name
      else if attribute == 2 then |d| == 2 && U16(d, 0) == row.symbolType
      else if attribute in {3, 5, 6} then |d| == 4 && U32(d, 0) == 0
      else if attribute == 8 then
        |d| == 12 && U32(d, 0) == (if row.elements > 1 then row.elements else 0) && U32(d, 4) == U32(d, 8) == 0
      else if attribute == 10 then d == [3]
      else d == []
  {
    hide U16, U32, Out16, Out32;
    var d := Attribute(row, attribute);
    if attribute == 1 {
      assert d[0..2] == Out16(|row.name|);
      U16Out16(d, 0, |row.name|);
    } else if attribute == 2 {
      U16Out16(d, 0, row.symbolType);
    } else if attribute in {3, 5, 6} {
      U32Out32(d, 0, 0);
    } else if attribute == 8 {
      var n := if row.elements > 1 then row.elements else 0;
      assert d[0..4] == Out32(n) && d[4..8] == Out32(0) && d[8..12] == Out32(0);
      U32Out32(d, 0, n);
      U32Out32(d, 4, 0);
      U32Out32(d, 8, 0);
    }
  }

  lemma InfosJoin(a: seq<Row>, b: seq<Row>)
    ensures Infos(a + b) == Infos(a) + Infos(b)
  {}

  // The next page goes on where this one ended.
  lemma NextPage(t: Table, start: nat, seen: seq<Row>, n: nat)
    requires start <= IDS && TableOk(t) && 0 < n <= |Ascending(t, start, IDS)|
    ensures var rows := Ascending(t, start, IDS);
      start <= rows[n - 1].id < 0xFFFF && (seen + rows[..n]) + Ascending(t, rows[n - 1].id + 1, IDS) == seen + rows
  {
    hide Ascending;
    var rows := Ascending(t, start, IDS);
    AscendingRows(t, start, IDS);
    Resumed(t, start, IDS, n);
    assert rows[n - 1] in rows;
    assert rows[..n] + rows[n..] == rows;
    assert (seen + rows[..n]) + rows[n..] == seen + (rows[..n] + rows[n..]);
  }

  // Browsing to the end lists every tag once, in the order of the ids, each with
  // its own name and type.
  method BrowseAll(t: Table) returns (tags: seq<Info>)
    requires TableOk(t)
    ensures tags == Infos(Ascending(t, 0, IDS))
  {
    hide RowBytes, RowOk, RowsOk, ParseRows, TableOk, Ascending, RowsBytes, Packed, InfoOf;
    tags := [];
    var start := 0;
    ghost var seen: seq<Row> := [];
    while true
      invariant start < IDS && tags == Infos(seen) && seen + Ascending(t, start, IDS) == Ascending(t, 0, IDS)
      decreases IDS - start
    {
      ghost var rows := Ascending(t, start, IDS);
      AscendingRows(t, start, IDS);
      SomeOk(rows, Packed(rows, NAME_AND_TYPE, 0, true));
      var reply := Page(Ascending(t, start, IDS), NAME_AND_TYPE);
      ghost var n := Packed(rows, NAME_AND_TYPE, 0, true);
      RowsRead(rows[..n], reply.data, 0);
      var page := ParseRows(reply.data, 0);
      InfosJoin(seen, rows[..n]);
      tags := tags + page;
      if reply.Done? {
        assert rows[..n] == rows;
        return;
      }
      SomeOk(rows, |rows|);
      FirstOk(rows);
      PageProgress(rows);
      NextPage(t, start, seen, n);
      assert page[|page| - 1].id == rows[n - 1].id by { InfoIs(rows[..n], n - 1); }
      seen := seen + rows[..n];
      start := page[|page| - 1].id + 1;
    }
  }

  // ---- Filling the page buffer ----

  lemma RowsBytesAppend(rows: seq<Row>, row: Row, requested: seq<nat>)
    ensures RowsBytes(rows + [row], requested) == RowsBytes(rows, requested) + RowBytes(row, requested)
    decreases |rows|
  {
    hide RowBytes;
    if rows == [] {
      assert rows + [row] == [row] && [row][1..] == [];
      assert RowsBytes([row], requested) == RowBytes(row, requested) + [];
    } else {
      assert (rows + [row])[1..] == rows[1..] + [row];
      RowsBytesAppend(rows[1..], row, requested);
    }
  }

  // Writes one row behind what the buffer holds; or runs into a limit on the way
  // and leaves the offset where the row began.
  method PutRow(buf: array<bv8>, start: nat, row: Row, requested: seq<nat>, packed: nat)
    returns (offset: nat, fits: bool)
    requires buf.Length == BUFFER && start <= BUFFER && (packed == 0 ==> start == 0)
    modifies buf
    ensures fits == RowFits(row, requested, start, packed == 0)
    ensures offset == (if fits then start + |RowBytes(row, requested)| else start) && offset <= BUFFER
    ensures buf[..offset] == old(buf[..start]) + (if fits then RowBytes(row, requested) else [])
  {
    hide Attribute, Out16, Out32;
    if start + 4 > PAGE && packed > 0 { return start, false; }
    offset := Put(buf, start, Out32(row.id));
    ghost var part := Out32(row.id);
    assert requested[0..] == requested;
    for j := 0 to |requested|
      invariant offset == start + |part| <= (if packed == 0 then BUFFER else PAGE)
      invariant buf[..offset] == old(buf[..start]) + part
      invariant part + Attributes(row, requested[j..]) == RowBytes(row, requested)
    {
      var bytes := Attribute(row, requested[j]);
      assert requested[j..][0] == requested[j] && requested[j..][1..] == requested[j + 1..];
      assert part + (bytes + Attributes(row, requested[j + 1..])) ==
        (part + bytes) + Attributes(row, requested[j + 1..]);
      if |bytes| > 0 && (offset + |bytes| > BUFFER || (offset + |bytes| > PAGE && packed > 0)) {
        assert buf[..start] == buf[..offset][..start];
        return start, false;
      }
      offset := Put(buf, offset, bytes);
      part := part + bytes;
    }
    assert requested[|requested|..] == [];
    return offset, true;
  }

  method BuildPage(rows: seq<Row>, requested: seq<nat>) returns (r: Reply)
    ensures r == Page(rows, requested)
  {
    hide RowBytes, RowFits, Attributes;
    var buf := new bv8[BUFFER];
    var offset: nat, packed: nat := 0, 0;
    assert rows[0..] == rows && rows[..0] == [];
    while packed < |rows|
      invariant packed <= |rows| && offset <= BUFFER && (packed == 0 ==> offset == 0)
      invariant buf[..offset] == RowsBytes(rows[..packed], requested)
      invariant Packed(rows, requested, 0, true) == packed + Packed(rows[packed..], requested, offset, packed == 0)
    {
      var row := rows[packed];
      assert rows[packed..][0] == row && rows[packed..][1..] == rows[packed + 1..];
      var next, fits := PutRow(buf, offset, row, requested, packed);
      if !fits {
        return More(buf[..offset]);
      }
      RowsBytesAppend(rows[..packed], row, requested);
      assert rows[..packed] + [row] == rows[..packed + 1];
      offset, packed := next, packed + 1;
    }
    assert rows[..|rows|] == rows;
    return Done(buf[..offset]);
  }
}
