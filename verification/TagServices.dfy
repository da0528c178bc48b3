// Reading and writing a tag at the place a walk has found.
module TagServices {
  import opened Numbers
  import opened Options
  import opened TagLayout
  import opened Walker
  import opened TagMemory

  const MAX_REPLY_DATA: nat := 480
  const STRUCT_INDICATOR: nat := 0x02A0

  // Complete, to be continued, or an error with its extended status.
  datatype Reply = Done(data: seq<bv8>) | More(data: seq<bv8>) | Fail(status: nat, extended: Option<nat>)

  function U16(d: seq<bv8>, i: nat): nat
    requires i + 2 <= |d|
  {
    Value(d[i]) + 256 * Value(d[i + 1])
  }

  function U32(d: seq<bv8>, i: nat): nat
    requires i + 4 <= |d|
  {
    U16(d, i) + 0x1_0000 * U16(d, i + 2)
  }

  function Out16(v: nat): (r: seq<bv8>)
    ensures |r| == 2
  {
    [Octet(v % 256), Octet(v / 256 % 256)]
  }

  lemma U16Out16(d: seq<bv8>, i: nat, v: nat)
    requires i + 2 <= |d| && d[i..i + 2] == Out16(v) && v < 0x1_0000
    ensures U16(d, i) == v
  {
    hide Octet, Value;
    OctetValue(v % 256);
    OctetValue(v / 256);
    assert d[i] == d[i..i + 2][0] && d[i + 1] == d[i..i + 2][1];
  }

  function Marker(): (r: seq<bv8>)
    ensures |r| == 2
  {
    [0xA0, 0x02]
  }

  // In front of the data: the type code, or the mark of a structure and its handle.
  function Prefix(w: Spot): (r: seq<bv8>)
    ensures |r| == if w.tpl.Some? then 4 else 2
  {
    if w.tpl.Some? then Marker() + Out16(w.tpl.value.handle) else Out16(w.typ)
  }

  // As much as fits one reply.
  function Answer(w: Spot, bytes: seq<bv8>): Reply {
    var room := MAX_REPLY_DATA - |Prefix(w)|;
    if |bytes| > room then More(Prefix(w) + bytes[..room]) else Done(Prefix(w) + bytes)
  }

  predicate BitHere(mem: seq<bv8>, w: Spot) { w.bit.Some? ==> w.bit.value < 8 && w.offset < |mem| }

  function BitReply(mem: seq<bv8>, w: Spot): Reply
    requires w.bit.Some? && BitHere(mem, w)
  {
    Done(Out16(0x00C1) + [if BitOf(mem[w.offset], w.bit.value) then 1 else 0])
  }

  function ReadAt(mem: seq<bv8>, d: seq<bv8>, w: Spot): Reply
    requires BitHere(mem, w)
  {
    if |d| < 2 then Fail(0x13, None)
    else
      var count := U16(d, 0);
      if w.bit.Some? then if count != 1 then Fail(0xFF, Some(0x2105)) else BitReply(mem, w)
      else
        var end := w.offset + count * w.size;
        if end > |mem| then Fail(0xFF, Some(0x2105)) else Answer(w, mem[w.offset..end])
  }

  // The header in front of the data of a write.
  datatype Header = Header(count: nat, size: nat) | Bad(status: nat, extended: Option<nat>)

  function WriteHeader(d: seq<bv8>, w: Spot): Header {
    if |d| < 4 then Bad(0x13, None)
    else if w.tpl.Some? then
      if |d| < 6 then Bad(0x13, None)
      else if U16(d, 0) != STRUCT_INDICATOR || U16(d, 2) != w.tpl.value.handle then Bad(0xFF, Some(0x2107))
      else Header(U16(d, 4), 6)
    else if U16(d, 0) != w.typ then Bad(0xFF, Some(0x2107))
    else Header(U16(d, 2), 4)
  }

  function Odd(b: bv8): bool { b & 0x01 != 0 }

  function WriteAt(mem: seq<bv8>, d: seq<bv8>, w: Spot): (r: (Reply, seq<bv8>))
    ensures |r.1| == |mem|
  {
    var h := WriteHeader(d, w);
    if h.Bad? then (Fail(h.status, h.extended), mem)
    else if w.bit.Some? then
      if h.count != 1 || |d| < h.size + 1 then (Fail(0x13, None), mem)
      else (Done([]), SetBit(mem, w.offset, w.bit.value, Odd(d[h.size])))
    else
      var n := h.count * w.size;
      if |d| < h.size + n then (Fail(0x13, None), mem)
      else if w.offset + n > |mem| then (Fail(0xFF, Some(0x2105)), mem)
      else (Done([]), Overlay(mem, d[h.size..h.size + n], w.offset))
  }

  // ---- What a write is for ----

  lemma OverlayInside(mem: seq<bv8>, source: seq<bv8>, off: nat)
    requires off + |source| <= |mem|
    ensures Overlay(mem, source, off) == mem[..off] + source + mem[off + |source|..]
  {
    if source == [] { assert mem[..off] + [] + mem[off..] == mem; }
  }

  // The bytes of one element.
  function ElementBytes(mem: seq<bv8>, w: Spot): seq<bv8>
    requires w.offset + w.size <= |mem|
  {
    mem[w.offset..w.offset + w.size]
  }

  function One(): seq<bv8> { [1, 0] }

  lemma OneIsOne()
    ensures U16(One(), 0) == 1
  {}

  // A write of one element, once accepted, is what a read of one element
  // returns: the bit, or the bytes behind the header.
  lemma WrittenIsRead(mem: seq<bv8>, d: seq<bv8>, w: Spot)
    requires BitHere(mem, w) && WriteAt(mem, d, w).0 == Done([]) && WriteHeader(d, w).count == 1
    ensures var h, after := WriteHeader(d, w), WriteAt(mem, d, w).1;
      if w.bit.Some? then
        |d| > h.size && ReadAt(after, One(), w) == Done(Out16(0x00C1) + [if Odd(d[h.size]) then 1 else 0])
      else |d| >= h.size + w.size && ReadAt(after, One(), w) == Answer(w, d[h.size..h.size + w.size])
  {
    hide U16, SetBit, WithBit, BitOf, Out16, WriteHeader, Odd, Prefix;
    var h, after := WriteHeader(d, w), WriteAt(mem, d, w).1;
    OneIsOne();
    if w.bit.Some? {
      SetBitIsByteWide(mem, w.offset, w.bit.value, Odd(d[h.size]));
      BitWith(mem[w.offset], w.bit.value, Odd(d[h.size]));
    } else {
      OverlayInside(mem, d[h.size..h.size + w.size], w.offset);
      assert after[w.offset..w.offset + w.size] == d[h.size..h.size + w.size];
    }
  }

  // What a write covers: a bit, or as many elements as it says.
  function Covers(d: seq<bv8>, w: Spot): Spot
    requires WriteHeader(d, w).Header?
  {
    if w.bit.Some? then w else w.(size := WriteHeader(d, w).count * w.size)
  }

  predicate Fits(mem: seq<bv8>, w: Spot) {
    if w.bit.Some? then w.bit.value < 8 && w.offset < |mem| else w.offset + w.size <= |mem|
  }

  lemma OverlayKeeps(mem: seq<bv8>, source: seq<bv8>, off: nat, i: nat)
    requires off + |source| <= |mem| && i < |mem| && !(off <= i < off + |source|)
    ensures Overlay(mem, source, off)[i] == mem[i]
  {
    OverlayInside(mem, source, off);
  }

  lemma SameReply(mem: seq<bv8>, after: seq<bv8>, v: Spot)
    requires |after| == |mem| && Fits(mem, v)
    requires
      if v.bit.Some? then BitOf(after[v.offset], v.bit.value) == BitOf(mem[v.offset], v.bit.value)
      else forall i :: v.offset <= i < v.offset + v.size ==> after[i] == mem[i]
    ensures ReadAt(after, One(), v) == ReadAt(mem, One(), v)
  {
    hide U16, BitOf, Out16, Prefix;
    OneIsOne();
    if v.bit.None? {
      assert after[v.offset..v.offset + v.size] == mem[v.offset..v.offset + v.size];
    }
  }

  // Whatever does not touch what the write covers reads as before.
  lemma ElsewhereUnread(mem: seq<bv8>, d: seq<bv8>, w: Spot, v: Spot)
    requires BitHere(mem, w) && Fits(mem, v) && WriteAt(mem, d, w).0 == Done([]) && Disjoint(Covers(d, w), v)
    ensures ReadAt(WriteAt(mem, d, w).1, One(), v) == ReadAt(mem, One(), v)
  {
    hide U16, SetBit, WithBit, BitOf, WriteHeader, Odd, ReadAt, Overlay;
    var h, after := WriteHeader(d, w), WriteAt(mem, d, w).1;
    if w.bit.Some? {
      SetBitIsByteWide(mem, w.offset, w.bit.value, Odd(d[h.size]));
      if v.bit.Some? && v.offset == w.offset {
        OtherBitWith(mem[w.offset], w.bit.value, Odd(d[h.size]), v.bit.value);
      }
    } else {
      var source := d[h.size..h.size + h.count * w.size];
      forall i | 0 <= i < |mem| && !(w.offset <= i < w.offset + |source|)
        ensures after[i] == mem[i]
      {
        OverlayKeeps(mem, source, w.offset, i);
      }
    }
    SameReply(mem, after, v);
  }

  // ---- By path ----

  predicate Holds(db: Templates, t: Tag, mem: seq<bv8>) { DbOk(db) && TagOk(db, t) && |mem| == t.dataSize }

  // Walk, then read one element.
  function ReadPath(db: Templates, t: Tag, mem: seq<bv8>, segs: seq<Segment>): Option<Reply>
    requires Holds(db, t, mem)
  {
    var w := Resolve(db, t, segs);
    if w.None? then None
    else
      WalkLandsInside(db, t, segs);
      Some(ReadAt(mem, One(), w.value.spot))
  }

  // Walk, then write.
  function WritePath(db: Templates, t: Tag, mem: seq<bv8>, segs: seq<Segment>, d: seq<bv8>)
    : (r: Option<(Reply, seq<bv8>)>)
    requires Holds(db, t, mem)
    ensures r.Some? ==> |r.value.1| == |mem|
  {
    var w := Resolve(db, t, segs);
    if w.None? then None else Some(WriteAt(mem, d, w.value.spot))
  }

  predicate LeafPath(db: Templates, t: Tag, segs: seq<Segment>) {
    var w := Resolve(db, t, segs);
    w.Some? && Leaf(w.value.spot) && NoHost(db, BoolArray(t), Root(t), w.value.steps)
  }

  predicate SameLeaf(db: Templates, t: Tag, xs: seq<Segment>, ys: seq<Segment>)
    requires LeafPath(db, t, xs) && LeafPath(db, t, ys)
  {
    Resolve(db, t, xs).value.steps == Resolve(db, t, ys).value.steps
  }

  // A successful write of one element.
  predicate WritesOne(db: Templates, t: Tag, mem: seq<bv8>, segs: seq<Segment>, d: seq<bv8>)
    requires Holds(db, t, mem) && LeafPath(db, t, segs)
  {
    WritePath(db, t, mem, segs, d).value.0 == Done([]) && WriteHeader(d, Resolve(db, t, segs).value.spot).count == 1
  }

  // What such a write carries behind its header, as a reply would carry it.
  function Carried(d: seq<bv8>, w: Spot): Reply
    requires WriteHeader(d, w).Header? && |d| >= WriteHeader(d, w).size + (if w.bit.Some? then 1 else w.size)
  {
    var at := WriteHeader(d, w).size;
    if w.bit.Some? then Done(Out16(0x00C1) + [if Odd(d[at]) then 1 else 0]) else Answer(w, d[at..at + w.size])
  }

  lemma WriteAccepted(mem: seq<bv8>, d: seq<bv8>, w: Spot)
    requires WriteAt(mem, d, w).0 == Done([]) && WriteHeader(d, w).count == 1
    ensures WriteHeader(d, w).Header? && Covers(d, w) == w
    ensures |d| >= WriteHeader(d, w).size + (if w.bit.Some? then 1 else w.size)
  {
    hide WriteHeader, SetBit;
  }

  // Writing one leaf of a tag and reading it again returns what was written, and
  // every other leaf reads as it did before.
  lemma LeafWrite(db: Templates, t: Tag, mem: seq<bv8>, xs: seq<Segment>, ys: seq<Segment>, d: seq<bv8>)
    requires Holds(db, t, mem) && LeafPath(db, t, xs) && LeafPath(db, t, ys) && WritesOne(db, t, mem, xs, d)
    ensures WriteHeader(d, Resolve(db, t, xs).value.spot).Header?
    ensures var w := Resolve(db, t, xs).value.spot; |d| >= WriteHeader(d, w).size + (if w.bit.Some? then 1 else w.size)
    ensures var after := WritePath(db, t, mem, xs, d).value.1;
      ReadPath(db, t, after, ys) ==
      if SameLeaf(db, t, xs, ys) then Some(Carried(d, Resolve(db, t, xs).value.spot)) else ReadPath(db, t, mem, ys)
  {
    hide Resolve, WriteAt, ReadAt, DbOk, TagOk, NoHost, WriteHeader, Disjoint, Out16, Answer, Covers;
    WalkLandsInside(db, t, xs);
    WalkLandsInside(db, t, ys);
    var w, v := Resolve(db, t, xs).value.spot, Resolve(db, t, ys).value.spot;
    WriteAccepted(mem, d, w);
    if SameLeaf(db, t, xs, ys) {
      SameLeafSameSpot(db, t, xs, ys);
      WrittenIsRead(mem, d, w);
    } else {
      WalksDisjoint(db, t, xs, ys);
      ElsewhereUnread(mem, d, w, v);
    }
  }

  lemma SameLeafSameSpot(db: Templates, t: Tag, xs: seq<Segment>, ys: seq<Segment>)
    requires LeafPath(db, t, xs) && LeafPath(db, t, ys) && SameLeaf(db, t, xs, ys)
    ensures Resolve(db, t, xs) == Resolve(db, t, ys)
  {
    hide Walk;
    SameStepsSameSpot(db, BoolArray(t), Root(t), xs, ys);
  }
}
