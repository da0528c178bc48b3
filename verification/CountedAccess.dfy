// Reads and writes of any number of elements, told from the memory alone.
module CountedAccess {
  import opened Options
  import opened Walker
  import opened TagMemory
  import opened TagServices
  import opened Fragments

  // The bytes of n elements.
  function Elements(mem: seq<bv8>, w: Spot, n: nat): (r: seq<bv8>)
    requires w.offset + n * w.size <= |mem|
    ensures |r| == n * w.size
  {
    mem[w.offset..w.offset + n * w.size]
  }

  // As many of them as one reply has room for, behind the prefix, and whether that
  // is all.
  predicate Carries(r: Reply, w: Spot, bytes: seq<bv8>) {
    var sent := Least(|bytes|, if w.tpl.Some? then 476 else 478);
    !r.Fail? && r.data == Prefix(w) + bytes[..sent] && (r.Done? <==> sent == |bytes|)
  }

  // A read is refused if and only if the elements it names leave the tag; otherwise
  // it carries them.
  lemma ReadExact(mem: seq<bv8>, d: seq<bv8>, w: Spot)
    requires w.bit.None? && |d| >= 2
    ensures
      var n, r := U16(d, 0), ReadAt(mem, d, w);
      if w.offset + n * w.size > |mem| then r == Fail(0xFF, Some(0x2105)) else Carries(r, w, Elements(mem, w, n))
  {
    hide U16, Prefix;
    var n := U16(d, 0);
    if w.offset + n * w.size <= |mem| {
      var all := Elements(mem, w, n);
      assert all[..|all|] == all;
    }
  }

  // A bit is read alone; a request without a count is no request.
  lemma ReadRefused(mem: seq<bv8>, d: seq<bv8>, w: Spot)
    requires BitHere(mem, w)
    ensures |d| < 2 <==> ReadAt(mem, d, w) == Fail(0x13, None)
    ensures w.bit.Some? && |d| >= 2 && U16(d, 0) != 1 ==> ReadAt(mem, d, w) == Fail(0xFF, Some(0x2105))
    ensures w.bit.Some? && |d| >= 2 && U16(d, 0) == 1 ==>
      ReadAt(mem, d, w) == Done([0xC1, 0x00] + [if BitOf(mem[w.offset], w.bit.value) then 1 else 0])
  {
    hide U16, Prefix, BitOf;
  }

  lemma CountRead(n: nat)
    requires n < 0x1_0000
    ensures |Out16(n)| == 2 && U16(Out16(n), 0) == n
  {
    hide U16, Out16;
    U16Out16(Out16(n), 0, n);
  }

  // The plain read is the first reply of the fragmented one.
  lemma PlainIsFirst(mem: seq<bv8>, w: Spot, n: nat)
    requires Window(mem, w, n)
    ensures ReadAt(mem, Out16(n), w) == ReadFragmentAt(mem, ReadRequest(n, 0), w)
  {
    hide U16, Out16, ReadRequest, Prefix, ReadAt, ReadFragmentAt;
    CountRead(n);
    ReadExact(mem, Out16(n), w);
    FragmentRead(mem, w, n, 0);
    var r, f := ReadAt(mem, Out16(n), w), ReadFragmentAt(mem, ReadRequest(n, 0), w);
    var all := Elements(mem, w, n);
    assert Room(w) == if w.tpl.Some? then 476 else 478;
    assert all[0..Least(|all|, Room(w))] == all[..Least(|all|, Room(w))];
  }

  // ---- Writes as the client sends them ----

  function HeadSize(w: Spot): nat { if w.tpl.Some? then 6 else 4 }

  function WriteRequest(w: Spot, n: nat, payload: seq<bv8>): (r: seq<bv8>)
    ensures |r| == HeadSize(w) + |payload|
  {
    (if w.tpl.Some? then [0xA0, 0x02] + Out16(w.tpl.value.handle) else Out16(w.typ)) + Out16(n) + payload
  }

  lemma RequestHeader(w: Spot, n: nat, payload: seq<bv8>)
    requires Writable(w) && n < 0x1_0000
    ensures
      var d := WriteRequest(w, n, payload);
      WriteHeader(d, w) == Header(n, HeadSize(w)) && d[HeadSize(w)..] == payload
  {
    hide U16, Out16;
    var d := WriteRequest(w, n, payload);
    if w.tpl.Some? {
      assert d[0..2] == Marker() && d[2..4] == Out16(w.tpl.value.handle) && d[4..6] == Out16(n);
      MarkerRead(d);
      U16Out16(d, 2, w.tpl.value.handle);
      U16Out16(d, 4, n);
    } else {
      assert d[0..2] == Out16(w.typ) && d[2..4] == Out16(n);
      U16Out16(d, 0, w.typ);
      U16Out16(d, 2, n);
    }
  }

  function Replaced(mem: seq<bv8>, off: nat, bytes: seq<bv8>): (r: seq<bv8>)
    requires off + |bytes| <= |mem|
    ensures |r| == |mem|
  {
    mem[..off] + bytes + mem[off + |bytes|..]
  }

  // It is refused if the payload is too short for what it names, or that leaves the
  // tag; otherwise exactly those bytes are overwritten.
  lemma WriteExact(mem: seq<bv8>, w: Spot, n: nat, payload: seq<bv8>, size: nat)
    requires Writable(w) && n < 0x1_0000 && w.bit.None? && size == n * w.size
    ensures WriteAt(mem, WriteRequest(w, n, payload), w) ==
      if |payload| < size then (Fail(0x13, None), mem)
      else if w.offset + size > |mem| then (Fail(0xFF, Some(0x2105)), mem)
      else (Done([]), Replaced(mem, w.offset, payload[..size]))
  {
    hide WriteHeader, WriteRequest, Overlay, HeadSize;
    RequestHeader(w, n, payload);
    var d := WriteRequest(w, n, payload);
    if |payload| >= size && w.offset + size <= |mem| {
      assert d[HeadSize(w)..HeadSize(w) + size] == d[HeadSize(w)..][..size];
      OverlayInside(mem, payload[..size], w.offset);
    }
  }

  // The prefix of a reply names what was read as a write names it.
  lemma PrefixNames(w: Spot, n: nat, payload: seq<bv8>)
    ensures Prefix(w) + Out16(n) + payload == WriteRequest(w, n, payload)
  {}

  // So what a read of n elements returned can be written back, and changes nothing.
  lemma EchoLeaves(mem: seq<bv8>, w: Spot, n: nat, size: nat)
    requires Writable(w) && n < 0x1_0000 && w.bit.None? && size == n * w.size
    requires w.offset + size <= |mem| && size <= (if w.tpl.Some? then 476 else 478)
    ensures
      var r, k := ReadAt(mem, Out16(n), w), if w.tpl.Some? then 4 else 2;
      r.Done? && |r.data| >= k && WriteAt(mem, r.data[..k] + Out16(n) + r.data[k..], w) == (Done([]), mem)
  {
    hide ReadAt, WriteAt, WriteRequest, U16, Out16;
    var r, k, all := ReadAt(mem, Out16(n), w), if w.tpl.Some? then 4 else 2, Elements(mem, w, n);
    CountRead(n);
    ReadExact(mem, Out16(n), w);
    assert all[..|all|] == all && r.data[..k] == Prefix(w) && r.data[k..] == all;
    PrefixNames(w, n, all);
    WriteExact(mem, w, n, all, size);
    assert all[..size] == all && Replaced(mem, w.offset, all) == mem;
  }

  // A bit takes the lowest bit of the first byte sent, and is written alone.
  lemma WriteBitExact(mem: seq<bv8>, w: Spot, n: nat, payload: seq<bv8>)
    requires Writable(w) && n < 0x1_0000 && w.bit.Some? && BitHere(mem, w)
    ensures
      var (r, after) := WriteAt(mem, WriteRequest(w, n, payload), w);
      if n != 1 || payload == [] then r == Fail(0x13, None) && after == mem
      else r == Done([]) && BitReplaced(mem, after, w.offset, w.bit.value, payload[0] & 0x01 != 0)
  {
    hide WriteHeader, WriteRequest, SetBit, BitReplaced, HeadSize;
    RequestHeader(w, n, payload);
    var d := WriteRequest(w, n, payload);
    if n == 1 && payload != [] {
      assert d[HeadSize(w)] == d[HeadSize(w)..][0] == payload[0];
      BitIsReplaced(mem, w.offset, w.bit.value, Odd(payload[0]));
    }
  }

  predicate BitReplaced(mem: seq<bv8>, after: seq<bv8>, at: nat, bit: nat, on: bool)
    requires |after| == |mem| && at < |mem| && bit < 8
  {
    && BitOf(after[at], bit) == on
    && (forall k :: 0 <= k < 8 && k != bit ==> BitOf(after[at], k) == BitOf(mem[at], k))
    && (forall i :: 0 <= i < |mem| && i != at ==> after[i] == mem[i])
  }

  lemma BitIsReplaced(mem: seq<bv8>, at: nat, bit: nat, on: bool)
    requires at < |mem| && bit < 8
    ensures BitReplaced(mem, SetBit(mem, at, bit, on), at, bit, on)
  {
    hide WithBit, BitOf, SetBit;
    SetBitIsByteWide(mem, at, bit, on);
    BitWith(mem[at], bit, on);
    forall k | 0 <= k < 8 && k != bit
      ensures BitOf(WithBit(mem[at], bit, on), k) == BitOf(mem[at], k)
    {
      OtherBitWith(mem[at], bit, on, k);
    }
  }

  // Whatever number of elements was written is what reading as many returns.
  lemma WrittenAllRead(mem: seq<bv8>, w: Spot, n: nat, payload: seq<bv8>, size: nat)
    requires Writable(w) && n < 0x1_0000 && w.bit.None? && size == n * w.size
    requires |payload| >= size && w.offset + size <= |mem|
    ensures Carries(ReadAt(WriteAt(mem, WriteRequest(w, n, payload), w).1, Out16(n), w), w, payload[..size])
  {
    hide WriteAt, WriteRequest, ReadAt, Out16, U16, Carries;
    WriteExact(mem, w, n, payload, size);
    var after := WriteAt(mem, WriteRequest(w, n, payload), w).1;
    CountRead(n);
    ReadExact(after, Out16(n), w);
    assert Elements(after, w, n) == payload[..size];
  }

  // ---- Fragments, inside the tag or not ----

  // From any offset: refused behind the last byte asked for or behind the tag,
  // otherwise as much as is asked for, is there, and has room in a reply.
  lemma FragmentExact(mem: seq<bv8>, w: Spot, n: nat, off: nat, total: nat)
    requires w.bit.None? && n < 0x1_0000 && off < 0x1_0000_0000 && total == n * w.size
    ensures
      var r, at := ReadFragmentAt(mem, ReadRequest(n, off), w), w.offset + off;
      if off >= total || at >= |mem| then r == Fail(0xFF, Some(0x2105))
      else
        !r.Fail? && |r.data| > |Prefix(w)| && Prefix(w) <= r.data &&
        var sent := |r.data| - |Prefix(w)|;
        at + sent <= |mem| && r.data[|Prefix(w)|..] == mem[at..at + sent] &&
        off + sent <= total && sent <= (if w.tpl.Some? then 476 else 478) &&
        (off + sent == total || at + sent == |mem| || sent == if w.tpl.Some? then 476 else 478) &&
        (r.Done? <==> off + sent == total)
  {
    hide ReadRequest, U16, U32, Prefix;
    ReadRequestRead(n, off);
    assert Room(w) == if w.tpl.Some? then 476 else 478;
  }

  // A piece is refused if it leaves the elements it belongs to, then if it leaves
  // the tag; otherwise exactly its bytes are overwritten.
  lemma FragmentWriteExact(mem: seq<bv8>, w: Spot, n: nat, off: nat, bytes: seq<bv8>)
    requires Writable(w) && n < 0x1_0000 && off < 0x1_0000_0000 && w.bit.None?
    ensures WriteFragmentAt(mem, WriteHead(w, n, off) + bytes, w) ==
      if off + |bytes| > n * w.size then (Fail(0xFF, Some(0x2104)), mem)
      else if w.offset + off + |bytes| > |mem| then (Fail(0xFF, Some(0x2105)), mem)
      else (Done([]), Replaced(mem, w.offset + off, bytes))
  {
    hide WriteHead, FragmentHeader, Overlay;
    WriteHeadRead(w, n, off, bytes);
    var d, h := WriteHead(w, n, off) + bytes, |WriteHead(w, n, off)|;
    assert d[h..] == bytes;
    if w.offset + off + |bytes| <= |mem| { OverlayInside(mem, bytes, w.offset + off); }
  }

  // A bit is read and written as a whole.
  lemma FragmentBitExact(mem: seq<bv8>, w: Spot, n: nat, off: nat, bytes: seq<bv8>)
    requires Writable(w) && n < 0x1_0000 && off < 0x1_0000_0000 && w.bit.Some? && BitHere(mem, w)
    ensures ReadFragmentAt(mem, ReadRequest(n, off), w) ==
      if n != 1 || off != 0 then Fail(0xFF, Some(0x2105)) else BitReply(mem, w)
    ensures
      var (r, after) := WriteFragmentAt(mem, WriteHead(w, n, off) + bytes, w);
      if n != 1 || off != 0 || bytes == [] then r == Fail(0x13, None) && after == mem
      else r == Done([]) && BitReplaced(mem, after, w.offset, w.bit.value, bytes[0] & 0x01 != 0)
  {
    hide WriteHead, FragmentHeader, ReadRequest, U16, U32, SetBit, BitReplaced, BitReply;
    ReadRequestRead(n, off);
    WriteHeadRead(w, n, off, bytes);
    var d, h := WriteHead(w, n, off) + bytes, |WriteHead(w, n, off)|;
    if n == 1 && off == 0 && bytes != [] {
      assert d[h] == bytes[0];
      BitIsReplaced(mem, w.offset, w.bit.value, Odd(bytes[0]));
    }
  }

  // ---- The wrong type ----

  // A write that names another type, or another structure, changes nothing.
  lemma WrongType(mem: seq<bv8>, d: seq<bv8>, w: Spot)
    requires |d| >= 6
    requires if w.tpl.Some? then U16(d, 0) != 0x02A0 || U16(d, 2) != w.tpl.value.handle else U16(d, 0) != w.typ
    ensures WriteAt(mem, d, w) == (Fail(0xFF, Some(0x2107)), mem)
    ensures |d| >= 10 ==> WriteFragmentAt(mem, d, w) == (Fail(0xFF, Some(0x2107)), mem)
  {
    hide U16;
  }
}
