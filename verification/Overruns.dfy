// A write may name more elements than its place has; it goes on into what stands
// behind.
module Overruns {
  import opened Options
  import opened TagLayout
  import opened Walker
  import opened TagMemory
  import opened TagServices
  import opened TagDatabase

  // ---- One place ----

  predicate Accepted(mem: seq<bv8>, d: seq<bv8>, w: Spot, n: nat) {
    WriteHeader(d, w).Header? && WriteHeader(d, w).count == n && WriteAt(mem, d, w).0 == Done([])
  }

  // What a write of n elements covers.
  function Span(w: Spot, n: nat): Spot { w.(size := n * w.size) }

  lemma SpanIsCovered(d: seq<bv8>, w: Spot, n: nat)
    requires w.bit.None? && WriteHeader(d, w).Header? && WriteHeader(d, w).count == n
    ensures Covers(d, w) == Span(w, n)
  {
    hide WriteHeader;
  }

  function Filled(n: nat, b: bv8): (r: seq<bv8>)
    ensures |r| == n && forall i :: 0 <= i < n ==> r[i] == b
  {
    seq(n, _ => b)
  }

  // A request that writes n elements of ones.
  function OnesRequest(w: Spot, n: nat): seq<bv8> { Out16(w.typ) + Out16(n) + Filled(n * w.size, 0xFF) }

  lemma OnesHeader(w: Spot, n: nat)
    requires w.tpl.None? && w.typ < 0x1_0000 && n < 0x1_0000
    ensures WriteHeader(OnesRequest(w, n), w) == Header(n, 4)
    ensures |OnesRequest(w, n)| == 4 + n * w.size && OnesRequest(w, n)[4..4 + n * w.size] == Filled(n * w.size, 0xFF)
  {
    hide U16, Out16, Filled;
    var d := OnesRequest(w, n);
    U16Out16(d, 0, w.typ);
    U16Out16(d, 2, n);
  }

  // The whole memory after it.
  lemma OnesWritten(mem: seq<bv8>, w: Spot, n: nat)
    requires w.tpl.None? && w.bit.None? && w.typ < 0x1_0000 && n < 0x1_0000 && w.offset + n * w.size <= |mem|
    ensures Accepted(mem, OnesRequest(w, n), w, n)
    ensures forall i :: 0 <= i < |mem| ==>
      WriteAt(mem, OnesRequest(w, n), w).1[i] == if w.offset <= i < w.offset + n * w.size then 0xFF else mem[i]
  {
    hide WriteHeader, OnesRequest, Overlay;
    OnesHeader(w, n);
    OverlayInside(mem, Filled(n * w.size, 0xFF), w.offset);
  }

  // Every leaf fits one reply, so that a byte of it that changes is seen.
  lemma ByteSeenInReply(mem: seq<bv8>, after: seq<bv8>, v: Spot, k: nat)
    requires |after| == |mem| && v.tpl.None? && v.bit.None? && v.size <= LARGEST && v.offset + v.size <= |mem|
    requires v.offset <= k < v.offset + v.size && after[k] != mem[k]
    ensures ReadAt(after, One(), v) != ReadAt(mem, One(), v)
  {
    hide U16, Out16;
    OneIsOne();
    var a, b := Prefix(v) + after[v.offset..v.offset + v.size], Prefix(v) + mem[v.offset..v.offset + v.size];
    assert a[2 + k - v.offset] != b[2 + k - v.offset];
  }

  lemma BitSeenInReply(mem: seq<bv8>, after: seq<bv8>, v: Spot)
    requires |after| == |mem| && v.bit.Some? && v.bit.value < 8 && v.offset < |mem|
    requires BitOf(after[v.offset], v.bit.value) != BitOf(mem[v.offset], v.bit.value)
    ensures ReadAt(after, One(), v) != ReadAt(mem, One(), v)
  {
    hide U16, Out16, BitOf;
    OneIsOne();
    var a := Out16(0x00C1) + [if BitOf(after[v.offset], v.bit.value) then 1 else 0];
    var b := Out16(0x00C1) + [if BitOf(mem[v.offset], v.bit.value) then 1 else 0];
    assert a[2] != b[2];
  }

  lemma AllOnes(k: nat)
    requires k < 8
    ensures BitOf(0xFF, k) && !BitOf(0, k)
  {}

  // Where the write covers some of another place, ones over zeros are seen there.
  lemma OnesSeen(size: nat, w: Spot, n: nat, v: Spot)
    requires w.tpl.None? && w.bit.None? && w.typ < 0x1_0000 && n < 0x1_0000 && w.offset + n * w.size <= size
    requires v.tpl.None? && 0 < v.size <= LARGEST && Fits(Filled(size, 0), v) && Disjoint(w, v) &&
      !Disjoint(Span(w, n), v)
    ensures var mem := Filled(size, 0);
      ReadAt(WriteAt(mem, OnesRequest(w, n), w).1, One(), v) != ReadAt(mem, One(), v)
  {
    hide WriteAt, OnesRequest, ReadAt, BitOf;
    var mem := Filled(size, 0);
    OnesWritten(mem, w, n);
    var after := WriteAt(mem, OnesRequest(w, n), w).1;
    if v.bit.Some? {
      AllOnes(v.bit.value);
      BitSeenInReply(mem, after, v);
    } else {
      var k := if w.offset > v.offset then w.offset else v.offset;
      assert n > 0;
      ByteSeenInReply(mem, after, v, k);
    }
  }

  // ---- By path ----

  // Whatever the tag holds and whatever is written, the other leaf reads as
  // before.
  ghost predicate NeverTouches(db: Templates, t: Tag, xs: seq<Segment>, ys: seq<Segment>, n: nat)
    requires DbOk(db) && TagOk(db, t) && LeafPath(db, t, xs) && LeafPath(db, t, ys)
  {
    forall mem: seq<bv8>, d: seq<bv8> | |mem| == t.dataSize && Accepted(mem, d, Resolve(db, t, xs).value.spot, n) ::
      ReadPath(db, t, WritePath(db, t, mem, xs, d).value.1, ys) == ReadPath(db, t, mem, ys)
  }

  // A write of n elements to one leaf leaves another alone exactly if what the
  // elements cover does not reach into it.
  lemma OverrunExact(db: Templates, t: Tag, xs: seq<Segment>, ys: seq<Segment>, n: nat)
    requires DbOk(db) && TagOk(db, t) && LeafPath(db, t, xs) && LeafPath(db, t, ys) && !SameLeaf(db, t, xs, ys)
    requires var w := Resolve(db, t, xs).value.spot;
      w.bit.None? && w.typ < 0x1_0000 && n < 0x1_0000 && w.offset + n * w.size <= t.dataSize
    ensures Disjoint(Span(Resolve(db, t, xs).value.spot, n), Resolve(db, t, ys).value.spot) <==>
      NeverTouches(db, t, xs, ys, n)
  {
    hide Resolve, DbOk, TagOk, NoHost, WriteAt, ReadAt, WriteHeader, Disjoint, OnesRequest, Filled, SpotOk;
    var w, v := Resolve(db, t, xs).value.spot, Resolve(db, t, ys).value.spot;
    WalkLandsInside(db, t, xs);
    WalkLandsInside(db, t, ys);
    WalksDisjoint(db, t, xs, ys);
    LeafSize(db, t, ys);
    if Disjoint(Span(w, n), v) {
      forall mem: seq<bv8>, d: seq<bv8> | |mem| == t.dataSize && Accepted(mem, d, w, n)
        ensures ReadPath(db, t, WritePath(db, t, mem, xs, d).value.1, ys) == ReadPath(db, t, mem, ys)
      {
        SpanIsCovered(d, w, n);
        ElsewhereUnread(mem, d, w, v);
      }
    } else {
      var mem := Filled(t.dataSize, 0);
      OnesSeen(t.dataSize, w, n, v);
      OnesWritten(mem, w, n);
      assert ReadPath(db, t, WritePath(db, t, mem, xs, OnesRequest(w, n)).value.1, ys) != ReadPath(db, t, mem, ys);
    }
  }

  lemma LeafSize(db: Templates, t: Tag, segs: seq<Segment>)
    requires DbOk(db) && TagOk(db, t) && LeafPath(db, t, segs)
    ensures 0 < Resolve(db, t, segs).value.spot.size <= LARGEST
  {
    hide Walk, DbOk, NoHost, From, To;
    WalkInside(db, BoolArray(t), Root(t), segs);
  }

  // ---- A structure of two SINTs ----

  const PAIR: seq<Decl> := [Decl("a", SINT, 0), Decl("b", SINT, 0)]

  const PAIR_TEMPLATE: Template :=
    Template(1, "Pair", 0x8001, 4, [Member("a", SINT, 0, 0, 1), Member("b", SINT, 1, 0, 1)])

  lemma OnePlaced(db: Templates, l: Layout, d: Decl, r: Layout, rest: seq<Decl>)
    requires Place(db, l, "Pair", d) == Some(r)
    ensures PlaceAll(db, l, "Pair", [d] + rest) == PlaceAll(db, r, "Pair", rest)
  {
    hide Place;
    assert ([d] + rest)[1..] == rest;
  }

  lemma AlignOne(offset: nat)
    ensures AlignUp(offset, 1) == offset
  {}

  lemma SintPlaced(db: Templates, l: Layout, name: string)
    ensures Place(db, l, "Pair", Decl(name, SINT, 0)) ==
      Some(Layout(l.members + [Member(name, SINT, l.offset, 0, 1)], l.offset + 1, 0, 0, l.hosts))
  {
    hide AlignUp;
    assert ElementSize(SINT) == 1 && TypeAlignment(SINT, 1) == 1;
    AlignOne(l.offset);
  }

  lemma PairBuilt(db: Templates)
    ensures Build(db, 1, "Pair", PAIR) == Some(PAIR_TEMPLATE)
  {
    hide Place, PlaceAll;
    var a, b := Decl("a", SINT, 0), Decl("b", SINT, 0);
    var first := Layout([] + [Member("a", SINT, 0, 0, 1)], 1, 0, 0, 0);
    var second := Layout(first.members + [Member("b", SINT, 1, 0, 1)], 2, 0, 0, 0);
    SintPlaced(db, Start(), "a");
    SintPlaced(db, first, "b");
    OnePlaced(db, Start(), a, first, [b]);
    OnePlaced(db, first, b, second, []);
    assert PAIR == [a] + [b] && [b] == [b] + [];
    NothingLeft(db, second, "Pair", []);
    assert second.members == PAIR_TEMPLATE.members;
  }

  function PairDb(): Templates { map[1 := PAIR_TEMPLATE] }

  function PairTag(): Tag { StructTag(PAIR_TEMPLATE, 1) }

  lemma PairOk()
    ensures DbOk(PairDb()) && TagOk(PairDb(), PairTag()) && PairTag().dataSize == 4
  {
    hide TemplateOk, TagOk;
    PairBuilt(map[]);
    BuildOk(map[], 1, "Pair", PAIR);
    Database.TemplateKept(map[], 1, PAIR_TEMPLATE, PAIR_TEMPLATE);
    StructTagOk(PairDb(), PAIR_TEMPLATE, 1);
  }

  lemma OneStep(db: Templates, boolArray: bool, s: Spot, seg: Segment, u: Spot)
    requires !seg.Logical? && Advance(db, boolArray, s, seg) == Some(u) && !Pending(u)
    ensures Walk(db, boolArray, s, [seg]) == Some(Walked([StepOf(s, seg).value], u))
  {
    hide Take, StepOf;
    assert [seg][1..] == [];
    var step := StepOf(s, seg).value;
    assert Walk(db, boolArray, u, []) == Some(Walked([], u)) && [step] + [] == [step];
  }

  lemma PairWalks()
    ensures Resolve(PairDb(), PairTag(), [Symbolic("a")]) ==
      Some(Walked([Into(0)], Spot(0, SINT, 1, None, None, [], 0, 0)))
    ensures Resolve(PairDb(), PairTag(), [Symbolic("b")]) ==
      Some(Walked([Into(1)], Spot(1, SINT, 1, None, None, [], 0, 0)))
  {
    var s, ms := Root(PairTag()), PAIR_TEMPLATE.members;
    PairFound();
    OneStep(PairDb(), false, s, Symbolic("a"), Spot(0, SINT, 1, None, None, [], 0, 0));
    OneStep(PairDb(), false, s, Symbolic("b"), Spot(1, SINT, 1, None, None, [], 0, 0));
  }

  lemma PairFound()
    ensures FindMember(PAIR_TEMPLATE.members, "a", 0) == Some(0)
    ensures FindMember(PAIR_TEMPLATE.members, "b", 0) == Some(1)
  {
    assert SameName("a", "a") && SameName("b", "b");
    assert Lower("a"[0]) != Lower("b"[0]);
    assert !SameName("a", "b");
  }

  lemma PairLeaves()
    ensures LeafPath(PairDb(), PairTag(), [Symbolic("a")]) && LeafPath(PairDb(), PairTag(), [Symbolic("b")])
    ensures !SameLeaf(PairDb(), PairTag(), [Symbolic("a")], [Symbolic("b")])
  {
    hide Resolve;
    PairWalks();
    assert [Into(0)][1..] == [] && [Into(1)][1..] == [];
  }

  // A write of two elements to the first member is accepted and changes what the
  // second one reads.
  lemma PairOverrun()
    ensures DbOk(PairDb()) && TagOk(PairDb(), PairTag()) && PairTag().dataSize == 4
    ensures LeafPath(PairDb(), PairTag(), [Symbolic("a")]) && LeafPath(PairDb(), PairTag(), [Symbolic("b")])
    ensures !SameLeaf(PairDb(), PairTag(), [Symbolic("a")], [Symbolic("b")])
    ensures
      var (db, t, mem) := (PairDb(), PairTag(), Filled(4, 0));
      var d := Out16(SINT) + Out16(2) + Filled(2, 0xFF);
      WritePath(db, t, mem, [Symbolic("a")], d).value.0 == Done([]) &&
      ReadPath(db, t, WritePath(db, t, mem, [Symbolic("a")], d).value.1, [Symbolic("b")]) !=
      ReadPath(db, t, mem, [Symbolic("b")])
  {
    hide Resolve, DbOk, TagOk, NoHost, WriteAt, ReadAt, Out16, Filled;
    PairOk();
    PairLeaves();
    PairWalks();
    var w := Spot(0, SINT, 1, None, None, [], 0, 0);
    OnesSeen(4, w, 2, w.(offset := 1));
    OnesWritten(Filled(4, 0), w, 2);
  }
}
