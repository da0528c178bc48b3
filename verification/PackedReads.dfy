// A packed read against the tag services themselves: from the names as text, by
// way of path, walk, packet and reply, to what the client is told.
module PackedReads {
  import opened Options
  import opened Sequences
  import opened TagLayout
  import opened Walker
  import opened TagMemory
  import opened TagServices
  import opened TagDatabase
  import P = SymbolicPath
  import M = MultiService
  import C = CountedAccess

  // ---- The tags of a controller ----

  datatype Held = Held(tag: Tag, mem: seq<bv8>)

  // Tags stand under their names in lower case.
  datatype Tables = Tables(templates: Templates, tags: map<string, Held>)

  predicate TablesOk(s: Tables) {
    DbOk(s.templates) &&
    forall k :: k in s.tags ==> TagOk(s.templates, s.tags[k].tag) && |s.tags[k].mem| == s.tags[k].tag.dataSize
  }

  type Store = s: Tables | TablesOk(s) witness Tables(map[], map[])

  // What stands in front of the first dot.
  function RootName(name: string): string {
    var dot := P.IndexOf(name, '.', 0);
    if dot.None? then name else name[..dot.value]
  }

  function Lookup(s: Store, name: string): (h: Option<Held>)
    ensures h.Some? ==> TagOk(s.templates, h.value.tag) && |h.value.mem| == h.value.tag.dataSize
  {
    if LowerAll(name) in s.tags then Some(s.tags[LowerAll(name)])
    else if LowerAll(RootName(name)) in s.tags then Some(s.tags[LowerAll(RootName(name))])
    else None
  }

  // A dotted name no tag has stands for the tag of its first part.
  lemma FirstPartFound(s: Store, name: string, rest: string)
    requires '.' !in name
    ensures
      var full := name + "." + rest;
      var key := if LowerAll(full) in s.tags then LowerAll(full) else LowerAll(name);
      Lookup(s, full) == (if key in s.tags then Some(s.tags[key]) else None)
  {
    hide TagOk, DbOk, LowerAll;
    P.FirstIndexOf(name, '.', rest);
    var full := name + "." + rest;
    assert full == name + ['.'] + rest && full[..|name|] == name;
  }

  // ---- The dispatcher, for reads of tags of controller scope ----

  function FirstName(segs: seq<P.Segment>): (r: Option<nat>)
    ensures r.Some? ==> r.value < |segs| && segs[r.value].Symbol?
    decreases |segs|
  {
    if segs == [] then None
    else if segs[0].Symbol? then Some(0)
    else
      var i := FirstName(segs[1..]);
      if i.None? then None else Some(i.value + 1)
  }

  predicate HasClass(segs: seq<P.Segment>) { exists i :: 0 <= i < |segs| && IsClass(segs[i]) }

  predicate IsClass(seg: P.Segment) { seg.Logical? && seg.kind == P.ClassId }

  const PROGRAM: string := "Program:"

  // A path whose class is not given and whose first name is not a program's.
  predicate InScope(segs: seq<P.Segment>) {
    !HasClass(segs) && FirstName(segs).Some? && !(PROGRAM <= segs[FirstName(segs).value].name)
  }

  // Other logical segments behind the name are left out.
  function Steps(segs: seq<P.Segment>): seq<Segment>
    decreases |segs|
  {
    if segs == [] then []
    else
      match segs[0]
      case Symbol(name) => [Symbolic(name)] + Steps(segs[1..])
      case Element(k) => [Element(k)] + Steps(segs[1..])
      case Logical(_, _) => Steps(segs[1..])
  }

  predicate Sound(s: Store, h: Held) { TagOk(s.templates, h.tag) && |h.mem| == h.tag.dataSize }

  // Without further segments the tag is read from its beginning.
  function ReadUnder(s: Store, h: Held, steps: seq<Segment>, d: seq<bv8>): Option<Reply>
    requires Sound(s, h)
  {
    if steps == [] then Some(ReadAt(h.mem, d, Root(h.tag)))
    else
      var w := Resolve(s.templates, h.tag, steps);
      if w.None? then None
      else
        WalkLandsInside(s.templates, h.tag, steps);
        Some(ReadAt(h.mem, d, w.value.spot))
  }

  function ReadSegments(s: Store, segs: seq<P.Segment>, d: seq<bv8>): Option<Reply>
    requires InScope(segs)
  {
    var i := FirstName(segs).value;
    var h := Lookup(s, segs[i].name);
    if h.None? then None else ReadUnder(s, h.value, Steps(segs[i + 1..]), d)
  }

  const PATH_UNKNOWN: bv8 := 0x05

  function Replying(reply: Option<Reply>): M.Response {
    if reply.None? then M.ErrorResponse(0x4C, PATH_UNKNOWN) else M.ResponseOf(0x4C, reply.value)
  }

  predicate TagRead(r: M.Request) { r.service == 0x4C && InScope(P.ParsePath(r.path, 0).segments) }

  // All other requests are answered elsewhere.
  function Answering(s: Store, other: M.Request -> M.Response): M.Request -> M.Response {
    r => if TagRead(r) then Replying(ReadSegments(s, P.ParsePath(r.path, 0).segments, r.data)) else other(r)
  }

  // What is not a read, gives a class, or names a program or nothing, is left to others.
  lemma OthersUntouched(s: Store, other: M.Request -> M.Response, r: M.Request)
    requires
      var segs := P.ParsePath(r.path, 0).segments;
      || r.service != 0x4C
      || (exists v :: P.Logical(P.ClassId, v) in segs)
      || (forall seg :: seg in segs ==> !seg.Symbol?)
      || (segs != [] && segs[0].Symbol? && "Program:" <= segs[0].name)
    ensures Answering(s, other)(r) == other(r)
  {
    hide P.ParsePath;
    var segs := P.ParsePath(r.path, 0).segments;
    if v :| P.Logical(P.ClassId, v) in segs {
      var i :| 0 <= i < |segs| && segs[i] == P.Logical(P.ClassId, v);
      assert IsClass(segs[i]);
    }
  }

  // ---- A name as text reaches the tag it names ----

  predicate Named(ps: seq<P.Piece>) {
    P.PiecesOk(ps) && InScope(P.Segments(ps)) && |P.BuildPath(P.Text(ps))| <= 510
  }

  // What the client is told of a name.
  function Told(s: Store, ps: seq<P.Piece>): Option<seq<bv8>>
    requires Named(ps)
  {
    M.Outcome(Replying(ReadSegments(s, P.Segments(ps), One())))
  }

  lemma RequestOf(ps: seq<P.Piece>)
    requires Named(ps)
    ensures var r := M.ReadOf(P.BuildPath, P.Text(ps));
      TagRead(r) && P.ParsePath(r.path, 0).segments == P.Segments(ps) && r.data == One()
  {
    hide P.ParsePath, P.BuildPath, P.Text, P.Segments, InScope, P.PieceOk;
    P.OkWritable(ps);
    P.PathRoundTrip(ps);
  }

  lemma ReplyingFits(s: Store, segs: seq<P.Segment>, d: seq<bv8>)
    requires InScope(segs)
    ensures var r := Replying(ReadSegments(s, segs, d));
      |M.EncodeResponse(r)| <= M.REPLY_BUFFER && |r.extra| <= 1
  {
    hide M.EncodeResponse, Resolve, DbOk, TagOk, ReadAt, HasClass;
    M.ErrorFits(0x4C, PATH_UNKNOWN);
    var i := FirstName(segs).value;
    var h := Lookup(s, segs[i].name);
    if h.Some? {
      var steps := Steps(segs[i + 1..]);
      if steps == [] {
        M.ReadReplyFits(0x4C, h.value.mem, d, Root(h.value.tag));
      } else if Resolve(s.templates, h.value.tag, steps).Some? {
        WalkLandsInside(s.templates, h.value.tag, steps);
        M.ReadReplyFits(0x4C, h.value.mem, d, Resolve(s.templates, h.value.tag, steps).value.spot);
      }
    }
  }

  lemma TagReplyFits(s: Store, other: M.Request -> M.Response, pathOf: string -> seq<bv8>, name: string)
    requires TagRead(M.ReadOf(pathOf, name))
    ensures M.ReplyFits(Answering(s, other), pathOf, name)
    ensures |Answering(s, other)(M.ReadOf(pathOf, name)).extra| <= 1
  {
    hide P.ParsePath, InScope, ReadSegments, Replying, M.EncodeResponse;
    var r := M.ReadOf(pathOf, name);
    ReplyingFits(s, P.ParsePath(r.path, 0).segments, r.data);
  }

  // As long as all names are of tags of controller scope, whether there or not: a
  // packed read fails exactly if its replies together do not fit the message, and
  // otherwise tells of every name what a read of its own would.
  lemma TagReadsExact(s: Store, other: M.Request -> M.Response, pathOf: string -> seq<bv8>, names: seq<string>)
    requires forall n :: n in names ==> TagRead(M.ReadOf(pathOf, n))
    ensures
      var answer := Answering(s, other);
      var r := M.Gathered(answer, pathOf, names);
      (r.Some? <==> names == [] || M.PacketFits(answer, pathOf, names)) &&
      (r.Some? ==> forall n :: n in names ==> M.Holds(r.value, n, M.Single(answer, pathOf, n)))
  {
    hide TagRead, M.PacketFits, M.Single, M.InPacket, M.ReplyFits, Answering;
    var answer := Answering(s, other);
    var r := M.Gathered(answer, pathOf, names);
    if r.Some? {
      forall n | n in names
        ensures M.Holds(r.value, n, M.Single(answer, pathOf, n))
      {
        TagReplyFits(s, other, pathOf, n);
        M.PacketKeepsExact(answer, pathOf, n);
      }
    }
  }

  function Texts(pss: seq<seq<P.Piece>>): (r: seq<string>)
    requires forall i :: 0 <= i < |pss| ==> Named(pss[i])
    ensures |r| == |pss|
  {
    seq(|pss|, i requires 0 <= i < |pss| => TextOf(pss[i]))
  }

  function TextOf(ps: seq<P.Piece>): string
    requires Named(ps)
  {
    P.OkWritable(ps);
    P.Text(ps)
  }

  lemma SingleIsTold(s: Store, other: M.Request -> M.Response, ps: seq<P.Piece>)
    requires Named(ps)
    ensures M.Single(Answering(s, other), P.BuildPath, TextOf(ps)) == Told(s, ps)
    ensures M.NameReadable(Answering(s, other), P.BuildPath, TextOf(ps))
  {
    hide P.ParsePath, P.BuildPath, P.Text, P.Segments, InScope, P.PieceOk, ReadSegments, Replying, M.EncodeResponse;
    RequestOf(ps);
    P.PathEven(TextOf(ps));
    TagReplyFits(s, other, P.BuildPath, TextOf(ps));
  }

  // From text to text: names that survive being written are told what the walk of
  // their own pieces reads in the tag they name.
  lemma NamesTold(s: Store, other: M.Request -> M.Response, pss: seq<seq<P.Piece>>)
    requires forall i :: 0 <= i < |pss| ==> Named(pss[i])
    requires M.Packable(M.ReadParts(P.BuildPath, Texts(pss)))
    ensures
      var answer, names := Answering(s, other), Texts(pss);
      var r := M.Gathered(answer, P.BuildPath, names);
      M.Readable(answer, P.BuildPath, names) &&
      (r.Some? <==> pss == [] || M.PacketFits(answer, P.BuildPath, names)) &&
      (r.Some? ==> forall i :: 0 <= i < |pss| ==> M.Holds(r.value, names[i], Told(s, pss[i])))
  {
    hide P.PiecesOk, InScope, M.Packable, M.ReadParts, M.Gathered, M.PacketFits, M.Single, M.NameReadable;
    hide Answering, TagRead, Told, TextOf;
    var answer, names := Answering(s, other), Texts(pss);
    forall i | 0 <= i < |pss|
      ensures M.Single(answer, P.BuildPath, names[i]) == Told(s, pss[i])
      ensures TagRead(M.ReadOf(P.BuildPath, names[i])) && M.NameReadable(answer, P.BuildPath, names[i])
    {
      SingleIsTold(s, other, pss[i]);
      TextRead(pss[i]);
    }
    TagReadsExact(s, other, P.BuildPath, names);
  }

  lemma TextRead(ps: seq<P.Piece>)
    requires Named(ps)
    ensures TagRead(M.ReadOf(P.BuildPath, TextOf(ps)))
  {
    hide TagRead;
    RequestOf(ps);
  }

  // ---- What is told, element by element ----

  lemma {:induction false} StepsJoin(a: seq<P.Segment>, b: seq<P.Segment>)
    ensures Steps(a + b) == Steps(a) + Steps(b)
    decreases |a|
  {
    if a == [] {
      assert a + b == b;
    } else {
      assert (a + b)[0] == a[0] && (a + b)[1..] == a[1..] + b;
      StepsJoin(a[1..], b);
    }
  }

  // Where a logical segment stands among the others makes no difference.
  lemma LogicalSkipped(a: seq<P.Segment>, kind: P.Kind, value: nat, b: seq<P.Segment>)
    ensures Steps(a + [P.Logical(kind, value)] + b) == Steps(a + b)
  {
    var one := [P.Logical(kind, value)];
    StepsJoin(a + one, b);
    StepsJoin(a, one);
    StepsJoin(a, b);
    assert one[1..] == [];
  }

  // The indices of all groups, in order.
  function Flat(gs: seq<seq<nat>>): seq<nat>
    decreases |gs|
  {
    if gs == [] then [] else gs[0] + Flat(gs[1..])
  }

  lemma {:induction false} IndexSteps(ks: seq<nat>)
    ensures Steps(P.Elements(ks)) == Elements(ks)
    decreases |ks|
  {
    if ks != [] {
      assert P.Elements(ks)[1..] == P.Elements(ks[1..]);
      IndexSteps(ks[1..]);
      assert Elements(ks) == [Element(ks[0])] + Elements(ks[1..]);
    }
  }

  lemma {:induction false} GroupSteps(gs: seq<seq<nat>>)
    ensures Steps(P.GroupSegments(gs)) == Elements(Flat(gs))
    decreases |gs|
  {
    if gs != [] {
      IndexSteps(gs[0]);
      GroupSteps(gs[1..]);
      StepsJoin(P.Elements(gs[0]), P.GroupSegments(gs[1..]));
      assert Elements(Flat(gs)) == Elements(gs[0]) + Elements(Flat(gs[1..]));
    }
  }

  // A name no tag has is answered with an unknown path destination.
  lemma UnknownTold(s: Store, p: P.Piece)
    requires Named([p]) && p.name != [] && LowerAll(p.name) !in s.tags
    ensures Replying(ReadSegments(s, P.Segments([p]), One())) == M.Response(M.Replied(0x4C), 0x05, [], [])
    ensures Told(s, [p]).None?
  {
    hide P.PiecesOk, P.BuildPath, P.Text, P.GroupSegments;
    OnePiece(p);
    WholeRoot(p);
    assert FirstName(P.Segments([p])) == Some(0);
  }

  lemma WholeRoot(p: P.Piece)
    requires P.PiecesOk([p])
    ensures RootName(p.name) == p.name
  {
    assert P.PieceOk([p][0]);
  }

  // As much of an element as fits a reply, behind its type.
  function Shown(w: Spot, mem: seq<bv8>): seq<bv8>
    requires w.offset + w.size <= |mem|
  {
    var room := if w.tpl.Some? then 476 else 478;
    Prefix(w) + mem[w.offset..w.offset + if w.size < room then w.size else room]
  }

  lemma OneTold(mem: seq<bv8>, w: Spot)
    requires w.bit.None?
    ensures M.Outcome(Replying(Some(ReadAt(mem, One(), w)))) ==
      if w.offset + w.size > |mem| then None else Some(Shown(w, mem))
  {
    hide ReadAt, Prefix;
    OneIsOne();
    C.ReadExact(mem, One(), w);
    if w.offset + w.size <= |mem| {
      var all, room := mem[w.offset..w.offset + w.size], if w.tpl.Some? then 476 else 478;
      assert C.Elements(mem, w, 1) == all && all[..|all|] == all;
      assert w.size > room ==> all[..room] == mem[w.offset..w.offset + room];
    } else {
      assert w.offset + 1 * w.size > |mem|;
    }
  }

  lemma NameSteps(s: Store, p: P.Piece)
    requires Named([p]) && p.name != [] && LowerAll(p.name) in s.tags
    ensures ReadSegments(s, P.Segments([p]), One()) ==
      ReadUnder(s, s.tags[LowerAll(p.name)], Elements(Flat(p.groups)), One())
  {
    hide P.PiecesOk, P.BuildPath, P.Text, P.GroupSegments, ReadUnder, TagOk, DbOk;
    OnePiece(p);
    GroupSteps(p.groups);
    var segs := P.Segments([p]);
    assert FirstName(segs) == Some(0) && segs[1..] == P.GroupSegments(p.groups);
  }

  // A name without indices is told what stands at the beginning of its tag.
  lemma WholeTold(s: Store, p: P.Piece)
    requires Named([p]) && p.name != [] && Flat(p.groups) == [] && LowerAll(p.name) in s.tags
    ensures
      var h := s.tags[LowerAll(p.name)];
      Told(s, [p]) == if h.tag.elementSize > |h.mem| then None else Some(Shown(Root(h.tag), h.mem))
  {
    hide InScope, P.PiecesOk, P.BuildPath, P.Text, P.Segments, ReadAt, TagOk, DbOk, M.Outcome, ReadSegments, Prefix;
    var h := s.tags[LowerAll(p.name)];
    NameSteps(s, p);
    OneTold(h.mem, Root(h.tag));
  }

  // With indices it is told the element they number, and nothing if there is none.
  lemma ElementTold(s: Store, p: P.Piece)
    requires Named([p]) && p.name != [] && Flat(p.groups) != [] && LowerAll(p.name) in s.tags
    requires !BoolArray(s.tags[LowerAll(p.name)].tag)
    ensures
      var h, ks := s.tags[LowerAll(p.name)], Flat(p.groups);
      if |ks| != |h.tag.dims| || !InRange(h.tag.dims, ks) then Told(s, [p]).None?
      else
        var w := ElementOf(h.tag, RowMajor(h.tag.dims, ks));
        w.offset + w.size <= |h.mem| && Told(s, [p]) == Some(Shown(w, h.mem))
  {
    hide InScope, P.PiecesOk, P.BuildPath, P.Text, P.Segments, ReadAt, TagOk, DbOk, M.Outcome, ReadSegments, Prefix;
    hide Walk, InRange, RowMajor, Elements, Shown;
    var h, ks := s.tags[LowerAll(p.name)], Flat(p.groups);
    NameSteps(s, p);
    TagElements(s.templates, h.tag, ks);
    if |ks| == |h.tag.dims| && InRange(h.tag.dims, ks) {
      WalkLandsInside(s.templates, h.tag, Elements(ks));
      OneTold(h.mem, ElementOf(h.tag, RowMajor(h.tag.dims, ks)));
    } else {
      NothingTold();
    }
  }

  lemma NothingTold()
    ensures M.Outcome(Replying(None)).None?
  {}

  // And of an array of BOOLs its bit.
  lemma BitTold(s: Store, p: P.Piece)
    requires Named([p]) && p.name != [] && Flat(p.groups) != [] && LowerAll(p.name) in s.tags
    requires BoolArray(s.tags[LowerAll(p.name)].tag)
    ensures
      var h, ks := s.tags[LowerAll(p.name)], Flat(p.groups);
      if |ks| != |h.tag.dims| || !InRange(h.tag.dims, ks) then Told(s, [p]).None?
      else
        var n := RowMajor(h.tag.dims, ks);
        n / 8 < |h.mem| && Told(s, [p]) == Some([0xC1, 0x00, if BitOf(h.mem[n / 8], n % 8) then 1 else 0])
  {
    hide InScope, P.PiecesOk, P.BuildPath, P.Text, P.Segments, TagOk, DbOk, ReadSegments, ReadAt;
    hide Walk, InRange, RowMajor, Elements;
    var h, ks := s.tags[LowerAll(p.name)], Flat(p.groups);
    NameSteps(s, p);
    TagElements(s.templates, h.tag, ks);
    if |ks| == |h.tag.dims| && InRange(h.tag.dims, ks) {
      WalkLandsInside(s.templates, h.tag, Elements(ks));
      BitRead(h.mem, ElementOf(h.tag, RowMajor(h.tag.dims, ks)));
    }
  }

  lemma BitRead(mem: seq<bv8>, w: Spot)
    requires w.bit.Some? && w.bit.value < 8 && w.offset < |mem|
    ensures ReadAt(mem, One(), w) == Done([0xC1, 0x00, if BitOf(mem[w.offset], w.bit.value) then 1 else 0])
  {
    OneIsOne();
    assert Out16(0x00C1) == [0xC1, 0x00];
  }

  // ---- A packed read that fails, although each of its tags can be read ----

  // An array of nine structures of 476 bytes, the most that one reply holds.
  const BLOCK: nat := 476

  const BLOCK_DECLS: seq<Decl> := [Decl("x", SINT, BLOCK)]

  const BLOCK_TEMPLATE: Template := Template(1, "Block", 0x8001, BLOCK, [Member("x", SINT, 0, BLOCK, 1)])

  lemma BlockBuilt(db: Templates)
    ensures Build(db, 1, "Block", BLOCK_DECLS) == Some(BLOCK_TEMPLATE)
  {
    hide PlaceAll;
    var d, l := Decl("x", SINT, BLOCK), Layout([Member("x", SINT, 0, BLOCK, 1)], BLOCK, 0, 0, 0);
    assert ElementSize(SINT) == 1 && TypeAlignment(SINT, 1) == 1 && AlignUp(0, 1) == 0;
    assert Place(db, Start(), "Block", d) == Some(l) by {
      assert [] + l.members == l.members;
    }
    assert BLOCK_DECLS == [d] && [d][1..] == [];
    BlockPlaced(db, d, l);
  }

  lemma BlockPlaced(db: Templates, d: Decl, l: Layout)
    requires Place(db, Start(), "Block", d) == Some(l)
    ensures PlaceAll(db, Start(), "Block", [d]) == Some(l)
  {
    hide Place;
    assert [d][1..] == [];
  }

  function BlockDb(): Templates { map[1 := BLOCK_TEMPLATE] }

  function BlockTag(): Tag { StructTag(BLOCK_TEMPLATE, 9) }

  function Blocks(): Tables { Tables(BlockDb(), map["t" := Held(BlockTag(), Zeros8(9 * BLOCK))]) }

  lemma BlocksOk()
    ensures TablesOk(Blocks()) && BlockTag().dataSize == 9 * BLOCK && BlockTag().dims == [9]
  {
    hide TemplateOk, TagOk;
    BlockBuilt(map[]);
    BuildOk(map[], 1, "Block", BLOCK_DECLS);
    Database.TemplateKept(map[], 1, BLOCK_TEMPLATE, BLOCK_TEMPLATE);
    StructTagOk(BlockDb(), BLOCK_TEMPLATE, 9);
    assert [9][1..] == [] && Product([9]) == 9;
  }

  lemma BlockWalk(k: nat)
    requires k < 9
    ensures Resolve(BlockDb(), BlockTag(), [Element(k)]) ==
      Some(Walked([At(k)], Spot(k * BLOCK, 0x8001, BLOCK, None, Some(BLOCK_TEMPLATE), [], 0, 0)))
  {
    var s := Root(BlockTag());
    var u := Spot(k * BLOCK, 0x8001, BLOCK, None, Some(BLOCK_TEMPLATE), [], 0, 0);
    assert AtIndex(false, s, k) == Some(u);
    assert [Element(k)][1..] == [] && Walk(BlockDb(), false, u, []) == Some(Walked([], u));
    assert [At(k)] + [] == [At(k)];
  }

  // The name of one element.
  function BlockName(k: nat): seq<P.Piece> { [P.Piece("t", [[k]])] }

  lemma BlockSegments(k: nat)
    requires k < 9
    ensures P.PiecesOk(BlockName(k)) && P.Segments(BlockName(k)) == [P.Symbol("t"), P.Element(k)]
    ensures |P.BuildPath(P.Text(BlockName(k)))| == 6
  {
    hide P.BuildPath, P.EmitSymbol;
    var p := P.Piece("t", [[k]]);
    assert !P.EndsInGroup("t");
    assert P.PieceOk(p);
    P.OkWritable(BlockName(k));
    P.TextBuilt(BlockName(k));
    OnePiece(p);
    OneGroup(k);
  }

  lemma OnePiece(p: P.Piece)
    ensures P.Segments([p]) == P.PieceSegments(p) && P.PathOf([p]) == P.EmitPiece(p.name, p.groups)
  {
    hide P.PieceSegments, P.EmitPiece;
    assert [p][1..] == [];
    assert P.PieceSegments(p) + [] == P.PieceSegments(p);
    assert P.EmitPiece(p.name, p.groups) + [] == P.EmitPiece(p.name, p.groups);
  }

  lemma OneGroup(k: nat)
    requires k < 9
    ensures P.GroupSegments([[k]]) == [P.Element(k)] && |P.EmitGroups([[k]])| == 2
  {
    assert [[k]][1..] == [] && [k][1..] == [];
    assert P.Elements([k]) == [P.Element(k)];
    assert |P.EmitElement(k)| == 2;
    assert P.EmitIndices([k]) == P.EmitElement(k) + P.EmitIndices([]) == P.EmitElement(k);
    assert P.EmitGroups([[k]]) == P.EmitIndices([k]) + P.EmitGroups([]) == P.EmitIndices([k]);
  }

  lemma BlockNamed(k: nat)
    requires k < 9
    ensures Named(BlockName(k)) && InScope(P.Segments(BlockName(k)))
    ensures FirstName(P.Segments(BlockName(k))) == Some(0)
  {
    hide P.PiecesOk, P.BuildPath, P.Text, P.Segments;
    BlockSegments(k);
    var segs := [P.Symbol("t"), P.Element(k)];
    assert forall i :: 0 <= i < |segs| ==> !IsClass(segs[i]);
    assert FirstName(segs) == Some(0) && !(PROGRAM <= "t");
  }

  // Each element is read whole by a request of its own.
  lemma BlockTold(k: nat)
    requires k < 9 && TablesOk(Blocks())
    ensures Named(BlockName(k))
    ensures
      var reply := ReadSegments(Blocks(), P.Segments(BlockName(k)), One());
      reply.Some? && reply.value.Done? && |reply.value.data| == BLOCK + 4
  {
    hide P.PiecesOk, P.BuildPath, P.Text, P.Segments, Resolve, InScope, Marker, Out16;
    BlocksOk();
    BlockSegments(k);
    BlockNamed(k);
    BlockWalk(k);
    OneIsOne();
    var segs := P.Segments(BlockName(k));
    assert Steps(segs[1..]) == [Element(k)] by { LastStep(k); }
    assert LowerAll("t") == "t";
    var w := Spot(k * BLOCK, 0x8001, BLOCK, None, Some(BLOCK_TEMPLATE), [], 0, 0);
    var mem := Zeros8(9 * BLOCK);
    assert Lookup(Blocks(), "t") == Some(Held(BlockTag(), mem));
    assert ReadSegments(Blocks(), segs, One()) == Some(ReadAt(mem, One(), w));
    assert w.offset + 1 * w.size <= |mem|;
  }

  lemma LastStep(k: nat)
    ensures Steps([P.Symbol("t"), P.Element(k)][1..]) == [Element(k)]
  {
    assert [P.Symbol("t"), P.Element(k)][1..] == [P.Element(k)] && [P.Element(k)][1..] == [];
  }

  function BlockNames(n: nat): (r: seq<seq<P.Piece>>)
    ensures |r| == n && forall k :: 0 <= k < n ==> r[k] == BlockName(k)
  {
    seq(n, k requires 0 <= k < n => BlockName(k))
  }

  lemma {:induction false} SameSizes(parts: seq<seq<bv8>>, size: nat)
    requires forall i :: 0 <= i < |parts| ==> |parts[i]| == size
    ensures |Concat(parts)| == size * |parts|
    decreases |parts|
  {
    if parts != [] { SameSizes(parts[1..], size); }
  }

  lemma PackSize(parts: seq<seq<bv8>>, size: nat)
    requires forall i :: 0 <= i < |parts| ==> |parts[i]| == size
    ensures |M.Pack(parts)| == 2 + (2 + size) * |parts|
  {
    hide M.Pack, Concat;
    SameSizes(parts, size);
    M.PackParts(parts);
    assert (2 + size) * |parts| == 2 * |parts| + size * |parts|;
  }

  lemma BlockReply(other: M.Request -> M.Response, k: nat)
    requires k < 9 && TablesOk(Blocks()) && Named(BlockName(k))
    ensures
      var r := M.ReadOf(P.BuildPath, TextOf(BlockName(k)));
      |M.EncodeMr(r)| == 10 &&
      |M.PartReply(Answering(Blocks(), other), M.EncodeMr(r))| == BLOCK + 8
    ensures Told(Blocks(), BlockName(k)).Some?
  {
    hide P.ParsePath, P.BuildPath, P.Text, P.Segments, InScope, P.PieceOk, ReadSegments, M.ParseMr, Named;
    var r := M.ReadOf(P.BuildPath, TextOf(BlockName(k)));
    BlockNamed(k);
    BlockSegments(k);
    BlockTold(k);
    RequestOf(BlockName(k));
    M.ReplyPart(Answering(Blocks(), other), P.BuildPath, TextOf(BlockName(k)));
  }

  // Each of the nine can be read, and up to eight of them in one packet; a packet
  // with all nine fails.
  lemma NineFail(other: M.Request -> M.Response, n: nat)
    requires n <= 9
    ensures TablesOk(Blocks()) && forall k :: 0 <= k < n ==> Named(BlockName(k))
    ensures forall k :: 0 <= k < n ==> Told(Blocks(), BlockName(k)).Some?
    ensures
      var names := Texts(BlockNames(n));
      M.Packable(M.ReadParts(P.BuildPath, names)) &&
      (M.Gathered(Answering(Blocks(), other), P.BuildPath, names).Some? <==> n <= 8)
  {
    hide Named, Told, M.Pack, M.EncodeMr, M.PartReply, M.ReadOf, TextOf, InScope;
    BlocksOk();
    forall k | 0 <= k < n
      ensures Named(BlockName(k)) && InScope(P.Segments(BlockName(k))) && Told(Blocks(), BlockName(k)).Some?
      ensures
        var r := M.ReadOf(P.BuildPath, TextOf(BlockName(k)));
        |M.EncodeMr(r)| == 10 && |M.PartReply(Answering(Blocks(), other), M.EncodeMr(r))| == BLOCK + 8
    {
      BlockNamed(k);
      BlockTold(k);
      BlockReply(other, k);
    }
    var parts := M.ReadParts(P.BuildPath, Texts(BlockNames(n)));
    PackSize(parts, 10);
    PackSize(M.PartReplies(Answering(Blocks(), other), parts), BLOCK + 8);
  }
}
