// Fragmented reads and writes, and the client loops that put the pieces together.
module Fragments {
  import opened Options
  import opened Sequences
  import opened Walker
  import opened TagMemory
  import opened TagServices

  function Least(a: int, b: int): int { if a < b then a else b }

  // ---- One fragment ----

  function Room(w: Spot): nat { MAX_REPLY_DATA - |Prefix(w)| }

  function ReadFragmentAt(mem: seq<bv8>, d: seq<bv8>, w: Spot): Reply
    requires BitHere(mem, w)
  {
    if |d| < 6 then Fail(0x13, None)
    else
      var count, off := U16(d, 0), U32(d, 2);
      if w.bit.Some? then if count != 1 || off != 0 then Fail(0xFF, Some(0x2105)) else BitReply(mem, w)
      else
        var total := count * w.size;
        if off >= total || w.offset + off >= |mem| then Fail(0xFF, Some(0x2105))
        else
          var at := w.offset + off;
          var chunk := Least(Least(total - off, |mem| - at), Room(w));
          var data := Prefix(w) + mem[at..at + chunk];
          if off + chunk < total then More(data) else Done(data)
  }

  function FragmentHeader(d: seq<bv8>, w: Spot): (r: Option<(nat, nat, nat)>)
    ensures r.Some? ==> r.value.2 <= |d|
  {
    if w.tpl.Some? then
      if |d| < 10 || U16(d, 0) != STRUCT_INDICATOR || U16(d, 2) != w.tpl.value.handle then None
      else Some((U16(d, 4), U32(d, 6), 10))
    else if |d| < 8 || U16(d, 0) != w.typ then None
    else Some((U16(d, 2), U32(d, 4), 8))
  }

  function HeaderFault(d: seq<bv8>, w: Spot): Reply {
    if |d| < 8 || (w.tpl.Some? && |d| < 10) then Fail(0x13, None) else Fail(0xFF, Some(0x2107))
  }

  function WriteFragmentAt(mem: seq<bv8>, d: seq<bv8>, w: Spot): (r: (Reply, seq<bv8>))
    ensures |r.1| == |mem|
  {
    var h := FragmentHeader(d, w);
    if h.None? then (HeaderFault(d, w), mem)
    else
      var (count, off, size) := h.value;
      var n := |d| - size;
      if w.bit.Some? then
        if count != 1 || off != 0 || n < 1 then (Fail(0x13, None), mem)
        else (Done([]), SetBit(mem, w.offset, w.bit.value, Odd(d[size])))
      else if off + n > count * w.size then (Fail(0xFF, Some(0x2104)), mem)
      else if w.offset + off + n > |mem| then (Fail(0xFF, Some(0x2105)), mem)
      else (Done([]), Overlay(mem, d[size..], w.offset + off))
  }

  // ---- Requests ----

  function Out32(v: nat): (r: seq<bv8>)
    ensures |r| == 4
  {
    Out16(v % 0x1_0000) + Out16(v / 0x1_0000 % 0x1_0000)
  }

  lemma U32Out32(d: seq<bv8>, i: nat, v: nat)
    requires i + 4 <= |d| && d[i..i + 4] == Out32(v) && v < 0x1_0000_0000
    ensures U32(d, i) == v
  {
    hide U16, Out16;
    assert d[i..i + 2] == d[i..i + 4][..2] && d[i + 2..i + 4] == d[i..i + 4][2..];
    U16Out16(d, i, v % 0x1_0000);
    U16Out16(d, i + 2, v / 0x1_0000);
  }

  function ReadRequest(count: nat, off: nat): seq<bv8> { Out16(count) + Out32(off) }

  lemma ReadRequestRead(count: nat, off: nat)
    requires count < 0x1_0000 && off < 0x1_0000_0000
    ensures |ReadRequest(count, off)| == 6 && U16(ReadRequest(count, off), 0) == count &&
      U32(ReadRequest(count, off), 2) == off
  {
    hide U16, U32, Out16, Out32;
    var d := ReadRequest(count, off);
    assert d[0..2] == Out16(count) && d[2..6] == Out32(off);
    U16Out16(d, 0, count);
    U32Out32(d, 2, off);
  }

  // ---- Reading a window piece by piece ----

  // A window of count elements that lies inside the tag and that a request can
  // name.
  predicate Window(mem: seq<bv8>, w: Spot, count: nat) {
    w.bit.None? && 0 < count < 0x1_0000 && 0 < w.size && w.offset + count * w.size <= |mem| < 0x1_0000_0000
  }

  function WindowBytes(mem: seq<bv8>, w: Spot, count: nat): seq<bv8>
    requires Window(mem, w, count)
  {
    mem[w.offset..w.offset + count * w.size]
  }

  lemma FragmentRead(mem: seq<bv8>, w: Spot, count: nat, off: nat)
    requires Window(mem, w, count) && off < count * w.size
    ensures var all := WindowBytes(mem, w, count); var n := Least(|all| - off, Room(w));
      ReadFragmentAt(mem, ReadRequest(count, off), w) ==
      if off + n < |all| then More(Prefix(w) + all[off..off + n]) else Done(Prefix(w) + all[off..off + n])
  {
    hide ReadRequest, U16, U32, Prefix;
    ReadRequestRead(count, off);
    var all := WindowBytes(mem, w, count);
    var n := Least(|all| - off, Room(w));
    SliceOfSlice(mem, w.offset, w.offset + count * w.size, off, off + n);
  }

  // The loop of a client that knows the prefix: ask again from where the last
  // reply ended until one is complete. It ends, and has the whole window.
  method ReadWindow(mem: seq<bv8>, w: Spot, count: nat) returns (out: seq<bv8>, replies: nat)
    requires Window(mem, w, count)
    ensures out == WindowBytes(mem, w, count)
    ensures replies == (|out| + Room(w) - 1) / Room(w)
  {
    hide ReadFragmentAt, ReadRequest, Prefix;
    out, replies := [], 0;
    ghost var all := WindowBytes(mem, w, count);
    var prefix := |Prefix(w)|;
    while true
      invariant |out| < |all| && out == all[..|out|] && |out| == replies * Room(w)
      decreases |all| - |out|
    {
      FragmentRead(mem, w, count, |out|);
      var reply := ReadFragmentAt(mem, ReadRequest(count, |out|), w);
      var piece := reply.data[prefix..];
      assert out + piece == all[..|out| + |piece|];
      replies := replies + 1;
      out := out + piece;
      if reply.Done? {
        return;
      }
    }
  }

  // ---- Writing a window from fragments ----

  function WriteHead(w: Spot, count: nat, off: nat): seq<bv8> {
    (if w.tpl.Some? then Marker() + Out16(w.tpl.value.handle) else Out16(w.typ)) + Out16(count) + Out32(off)
  }

  lemma WriteHeadRead(w: Spot, count: nat, off: nat, bytes: seq<bv8>)
    requires count < 0x1_0000 && off < 0x1_0000_0000 && w.typ < 0x1_0000 &&
      (w.tpl.Some? ==> w.tpl.value.handle < 0x1_0000)
    ensures FragmentHeader(WriteHead(w, count, off) + bytes, w) == Some((count, off, |WriteHead(w, count, off)|))
  {
    hide U16, U32, Out16, Out32, Marker;
    var d := WriteHead(w, count, off) + bytes;
    if w.tpl.Some? {
      assert d[0..2] == Marker() && d[2..4] == Out16(w.tpl.value.handle) && d[4..6] == Out16(count) &&
        d[6..10] == Out32(off);
      MarkerRead(d);
      U16Out16(d, 2, w.tpl.value.handle);
      U16Out16(d, 4, count);
      U32Out32(d, 6, off);
    } else {
      assert d[0..2] == Out16(w.typ) && d[2..4] == Out16(count) && d[4..8] == Out32(off);
      U16Out16(d, 0, w.typ);
      U16Out16(d, 2, count);
      U32Out32(d, 4, off);
    }
  }

  lemma MarkerRead(d: seq<bv8>)
    requires |d| >= 2 && d[0..2] == Marker()
    ensures U16(d, 0) == STRUCT_INDICATOR
  {
    assert d[0] == d[0..2][0] == 0xA0 && d[1] == d[0..2][1] == 0x02;
  }

  // A piece of the payload.
  datatype Piece = Piece(off: nat, len: nat)

  predicate Pieces(fs: seq<Piece>, total: nat) { forall f :: f in fs ==> f.off + f.len <= total }

  function PieceRequest(w: Spot, count: nat, payload: seq<bv8>, f: Piece): seq<bv8>
    requires f.off + f.len <= |payload|
  {
    WriteHead(w, count, f.off) + payload[f.off..f.off + f.len]
  }

  predicate Writable(w: Spot) { w.typ < 0x1_0000 && (w.tpl.Some? ==> w.tpl.value.handle < 0x1_0000) }

  lemma PieceWritten(mem: seq<bv8>, w: Spot, count: nat, payload: seq<bv8>, f: Piece)
    requires Window(mem, w, count) && Writable(w) && |payload| == count * w.size && f.off + f.len <= |payload|
    ensures var r := WriteFragmentAt(mem, PieceRequest(w, count, payload, f), w);
      r.0 == Done([]) && r.1 == Overlay(mem, payload[f.off..f.off + f.len], w.offset + f.off)
  {
    hide WriteHead, FragmentHeader, Overlay;
    var bytes := payload[f.off..f.off + f.len];
    WriteHeadRead(w, count, f.off, bytes);
    var d := WriteHead(w, count, f.off) + bytes;
    assert d[|WriteHead(w, count, f.off)|..] == bytes;
  }

  // One request after the other.
  function WriteAll(mem: seq<bv8>, w: Spot, count: nat, payload: seq<bv8>, fs: seq<Piece>): (r: seq<bv8>)
    requires Pieces(fs, |payload|)
    ensures |r| == |mem|
    decreases |fs|
  {
    if fs == [] then mem
    else WriteAll(WriteFragmentAt(mem, PieceRequest(w, count, payload, fs[0]), w).1, w, count, payload, fs[1..])
  }

  predicate Covered(fs: seq<Piece>, i: nat) { exists f :: f in fs && f.off <= i < f.off + f.len }

  // In any order and with any overlap: what some piece covers holds the payload,
  // and nothing else changes.
  lemma {:induction false} PiecesWritten(mem: seq<bv8>, w: Spot, count: nat, payload: seq<bv8>, fs: seq<Piece>, i: nat)
    requires Window(mem, w, count) && Writable(w) && |payload| == count * w.size && Pieces(fs, |payload|) && i < |mem|
    ensures WriteAll(mem, w, count, payload, fs)[i] ==
      if w.offset <= i < w.offset + |payload| && Covered(fs, i - w.offset) then payload[i - w.offset] else mem[i]
    decreases |fs|
  {
    hide WriteFragmentAt, PieceRequest;
    if fs != [] {
      var f := fs[0];
      var next := WriteFragmentAt(mem, PieceRequest(w, count, payload, f), w).1;
      PieceWritten(mem, w, count, payload, f);
      OverlayInside(mem, payload[f.off..f.off + f.len], w.offset + f.off);
      PiecesWritten(next, w, count, payload, fs[1..], i);
      var j := i - w.offset;
      if 0 <= j < |payload| {
        assert Covered(fs, j) <==> f.off <= j < f.off + f.len || Covered(fs[1..], j);
      }
    }
  }

  // Pieces that cover the window leave exactly the payload there.
  lemma WindowWritten(mem: seq<bv8>, w: Spot, count: nat, payload: seq<bv8>, fs: seq<Piece>)
    requires Window(mem, w, count) && Writable(w) && |payload| == count * w.size && Pieces(fs, |payload|)
    requires forall j :: 0 <= j < |payload| ==> Covered(fs, j)
    ensures WriteAll(mem, w, count, payload, fs) == mem[..w.offset] + payload + mem[w.offset + |payload|..]
  {
    hide WriteAll, Covered;
    var after := WriteAll(mem, w, count, payload, fs);
    forall i | 0 <= i < |mem|
      ensures after[i] == (mem[..w.offset] + payload + mem[w.offset + |payload|..])[i]
    {
      PiecesWritten(mem, w, count, payload, fs, i);
    }
  }

  // ---- A client that expects the full prefix on the first reply only ----

  lemma FragmentBeyond(mem: seq<bv8>, w: Spot, off: nat)
    requires w.bit.None? && off < 0x1_0000_0000 && off >= w.size
    ensures ReadFragmentAt(mem, ReadRequest(1, off), w) == Fail(0xFF, Some(0x2105))
  {
    hide ReadRequest, U16, U32;
    ReadRequestRead(1, off);
  }

  // The structure read of the tag client strips four bytes from the first reply
  // and two from every other, where this server always sends four. It returns
  // the structure exactly when one reply holds all of it; of a longer one it
  // returns two bytes too many, or gives up.
  method ReadStructBytes(mem: seq<bv8>, w: Spot) returns (r: Option<seq<bv8>>)
    requires w.tpl.Some? && w.bit.None? && w.offset + w.size <= |mem| < 0xFFFF_FFFE
    ensures r == Some(ElementBytes(mem, w)) <==> 0 < w.size <= MAX_REPLY_DATA - 4
    ensures w.size > MAX_REPLY_DATA - 4 && r.Some? ==> |r.value| == w.size + 2
  {
    hide ReadFragmentAt, ReadRequest, Prefix;
    var out: seq<bv8>, off: nat, first := [], 0, true;
    ghost var all := ElementBytes(mem, w);
    while true
      invariant off == |out| <= w.size + 2 && (first ==> off == 0) &&
        (!first ==> w.size > MAX_REPLY_DATA - 4 && off > 0)
      decreases w.size + 2 - off
    {
      if off >= w.size { FragmentBeyond(mem, w, off); } else { StructFragment(mem, w, off); }
      var reply := ReadFragmentAt(mem, ReadRequest(1, off), w);
      if reply.Fail? { return None; }
      var header := if first then 4 else 2;
      if |reply.data| <= header { return Some(out); }
      assert first ==> reply.data[header..] == all[..Least(w.size, MAX_REPLY_DATA - 4)];
      assert all[..w.size] == all;
      var added := |reply.data| - header;
      out := out + reply.data[header..];
      off := off + added;
      if reply.Done? {
        assert first ==> out == all && w.size <= MAX_REPLY_DATA - 4;
        assert !first ==> |out| == w.size + 2;
        return Some(out);
      }
      first := false;
    }
  }

  lemma StructFragment(mem: seq<bv8>, w: Spot, off: nat)
    requires w.tpl.Some? && w.bit.None? && off < w.size && w.offset + w.size <= |mem| < 0x1_0000_0000
    ensures var n := Least(w.size - off, MAX_REPLY_DATA - 4);
      ReadFragmentAt(mem, ReadRequest(1, off), w) ==
      if off + n < w.size then More(Prefix(w) + ElementBytes(mem, w)[off..off + n])
      else Done(Prefix(w) + ElementBytes(mem, w)[off..off + n])
  {
    hide ReadFragmentAt, ReadRequest, Prefix;
    assert 1 * w.size == w.size;
    FragmentRead(mem, w, 1, off);
  }
}
