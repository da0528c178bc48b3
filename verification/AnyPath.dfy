// A safety open whose application path is any list of segments: the target walks
// it, finds the one safety segment behind it, and computes the same path CRC.
module AnyPath {
  import opened Numbers
  import opened Options
  import opened Crc
  import opened NetworkSegment
  import opened ConnectionPath
  import opened ForwardOpen
  import opened SafetyOpen
  import opened PathItems

  // Some segments, none of them a safety segment, perhaps behind the wrapper that
  // some originators send.
  datatype Route = Route(wrapped: bool, items: seq<Item>)

  function RouteBytes(a: Route): (r: seq<bv8>)
    requires AllOk(a.items)
    ensures a.items != [] ==> r != []
  {
    (if a.wrapped then WRAPPER else []) + AllBytes(a.items)
  }

  // Short enough for the count of words to say the whole path.
  predicate RouteOk(a: Route) {
    && AllOk(a.items) && a.items != [] && (forall i :: 0 <= i < |a.items| ==> !a.items[i].SafetyItem?)
    && (!a.wrapped ==> !(WRAPPER <= AllBytes(a.items))) && |RouteBytes(a)| <= 448
  }

  // ---- The path as the target walks it ----

  lemma {:induction false} AllBytesJoin(xs: seq<Item>, y: Item)
    requires AllOk(xs) && ItemOk(y)
    ensures AllOk(xs + [y]) && AllBytes(xs + [y]) == AllBytes(xs) + Bytes(y)
    decreases |xs|
  {
    hide ItemOk, Bytes;
    if xs == [] {
      assert [] + [y] == [y] && [y][1..] == [];
      assert AllBytes([y]) == Bytes(y) + AllBytes([]);
    } else {
      assert (xs + [y])[0] == xs[0] && (xs + [y])[1..] == xs[1..] + [y];
      AllBytesJoin(xs[1..], y);
    }
  }

  lemma {:induction false} KeptJoin(s: Seen, xs: seq<Item>, y: Item)
    requires AllOk(xs) && ItemOk(y) && AllOk(xs + [y])
    ensures AllKept(s, xs + [y]) == Kept(AllKept(s, xs), y)
    decreases |xs|
  {
    hide ItemOk, Kept;
    if xs == [] {
      assert [] + [y] == [y] && [y][1..] == [];
    } else {
      assert (xs + [y])[0] == xs[0] && (xs + [y])[1..] == xs[1..] + [y];
      KeptJoin(Kept(s, xs[0]), xs[1..], y);
    }
  }

  lemma {:induction false} FirstIsLast(xs: seq<Item>, y: Item)
    requires AllOk(xs) && AllOk(xs + [y]) && y.SafetyItem? && forall i :: 0 <= i < |xs| ==> !xs[i].SafetyItem?
    ensures FirstSafety(xs + [y]) == Some(|AllBytes(xs)|)
    decreases |xs|
  {
    hide ItemOk, Bytes;
    if xs != [] {
      assert (xs + [y])[0] == xs[0] && (xs + [y])[1..] == xs[1..] + [y];
      FirstIsLast(xs[1..], y);
    }
  }

  lemma SegmentItem(s: Segment)
    requires SegmentOk(s)
    ensures ItemOk(SafetyItem(Encode(s)[2..])) && Bytes(SafetyItem(Encode(s)[2..])) == Encode(s)
  {
    hide Front, Back, Octet;
    FrontFields(s, Encode(s));
    WordCounts();
    assert Encode(s) == [Encode(s)[0], Encode(s)[1]] + Encode(s)[2..];
  }

  lemma StillUnwrapped(front: seq<bv8>, e: seq<bv8>)
    requires !(WRAPPER <= front) && e != [] && e[0] == 0x50
    ensures !(WRAPPER <= front + e)
  {
    if |front| < 6 {
      assert (front + e)[|front|] == 0x50;
      assert WRAPPER[0] != 0x50 && WRAPPER[1] != 0x50 && WRAPPER[2] != 0x50;
      assert WRAPPER[3] != 0x50 && WRAPPER[4] != 0x50 && WRAPPER[5] != 0x50;
    } else {
      assert (front + e)[..6] == front[..6];
    }
  }

  lemma WordCounts()
    ensures Octet(30) == 0x1E && Octet(27) == 0x1B
  {}

  // The segment behind the route is what both walks come to.
  lemma RouteWalked(a: Route, s: Segment)
    requires RouteOk(a) && SegmentOk(s)
    ensures SeenOn(RouteBytes(a) + Encode(s)).safety == Encode(s)
    ensures FindSafety(RouteBytes(a) + Encode(s)) == Some(|RouteBytes(a)|)
  {
    hide SeenOn, FindSafety, AllBytes, AllKept, FirstSafety, Bytes, ItemOk, Front, Back;
    var y := SafetyItem(Encode(s)[2..]);
    SegmentItem(s);
    AllBytesJoin(a.items, y);
    KeptJoin(Nothing(), a.items, y);
    FirstIsLast(a.items, y);
    if a.wrapped {
      WrappedWalked(a.items + [y]);
      assert RouteBytes(a) + Encode(s) == WRAPPER + AllBytes(a.items + [y]);
    } else {
      FrontFields(s, Encode(s));
      StillUnwrapped(AllBytes(a.items), Encode(s));
      PathWalked(a.items + [y]);
      assert RouteBytes(a) + Encode(s) == AllBytes(a.items + [y]);
    }
  }

  // ---- The request as the target parses it ----

  lemma WholeRequest(sd: seq<bv8>)
    requires |sd| >= 36 && |sd| == 36 + 2 * Value(sd[35])
    ensures ParseRequest(sd, false).Some?
    ensures var r := ParseRequest(sd, false).value; r.path == sd[36..] && r.raw == sd
  {
    hide ParsedHead, Value;
    assert sd[..|sd|] == sd && sd[36..|sd|] == sd[36..];
    HeadKeeps(sd, sd[36..], sd);
  }

  function SegmentOf(c: Config, o: Origin, a: Route): Segment
    requires ConfigOk(c) && RouteOk(a)
  {
    SegmentFor(c, CrcFor(c, o, [], RouteBytes(a)))
  }

  function WordsOf(c: Config, o: Origin, a: Route): bv8
    requires ConfigOk(c) && RouteOk(a)
  {
    LowByte((|RouteBytes(a)| + |Encode(SegmentOf(c, o, a))|) / 2)
  }

  lemma BuiltBytes(c: Config, o: Origin, a: Route)
    requires ConfigOk(c) && RouteOk(a)
    ensures
      var sd, app, e := Build(c, o, [], RouteBytes(a)), RouteBytes(a), Encode(SegmentOf(c, o, a));
      sd == Head(c, o, WordsOf(c, o, a)) + app + e && |sd| == 36 + 2 * Value(sd[35]) && sd[36..] == app + e
  {
    hide Head, WordsOf, SegmentOf, Encode, RouteBytes, Value, Build;
    BuiltParts(c, o, a);
    WordsCount(c, o, a);
  }

  lemma BuiltParts(c: Config, o: Origin, a: Route)
    requires ConfigOk(c) && RouteOk(a)
    ensures
      Build(c, o, [], RouteBytes(a)) == Head(c, o, WordsOf(c, o, a)) + RouteBytes(a) + Encode(SegmentOf(c, o, a))
  {
    hide Head, CrcFor, LowByte, SegmentFor, Encode, RouteBytes;
    var head := Head(c, o, WordsOf(c, o, a));
    assert head + [] == head;
  }

  lemma WordsCount(c: Config, o: Origin, a: Route)
    requires ConfigOk(c) && RouteOk(a)
    ensures 2 * Value(WordsOf(c, o, a)) == |RouteBytes(a)| + |Encode(SegmentOf(c, o, a))|
  {
    hide CrcFor, SegmentFor, RouteBytes, Front, Back, LowByte, Value;
    EvenRoute(a);
    LowByteCount((|RouteBytes(a)| + |Encode(SegmentOf(c, o, a))|) / 2);
  }

  lemma EvenRoute(a: Route)
    requires RouteOk(a)
    ensures |RouteBytes(a)| % 2 == 0
  {
    hide Bytes, ItemOk;
    EvenItems(a.items);
  }

  lemma {:induction false} EvenItems(xs: seq<Item>)
    requires AllOk(xs)
    ensures |AllBytes(xs)| % 2 == 0
    decreases |xs|
  {
    hide Bytes, ItemOk;
    if xs != [] { EvenItems(xs[1..]); }
  }

  // The CRC the originator took is the one the target takes.
  lemma SameMessage(c: Config, o: Origin, a: Route)
    requires ConfigOk(c) && RouteOk(a)
    ensures
      var sd, app, e := Build(c, o, [], RouteBytes(a)), RouteBytes(a), Encode(SegmentOf(c, o, a));
      var n := Covered(SegmentOf(c, o, a).format);
      |sd| >= 36 && n <= |e| &&
      S4(CpMessage(sd, (app + e)[..|app|], (app + e)[|app|..|app| + n], LowByte(|app + e| / 2)), PRESET) ==
      CrcFor(c, o, [], app)
  {
    hide Head, S4, LowByte, Front, Back, RouteBytes, Build, CrcFor;
    var sd, app, crc := Build(c, o, [], RouteBytes(a)), RouteBytes(a), CrcFor(c, o, [], RouteBytes(a));
    var e, n := Encode(SegmentOf(c, o, a)), Covered(SegmentOf(c, o, a).format);
    BuiltBytes(c, o, a);
    FrontIgnoresCrc(c, 0, crc);
    var head := Head(c, o, WordsOf(c, o, a));
    assert sd[10..14] == head[10..14] && sd[18..35] == head[18..35];
    assert (app + e)[..|app|] == app && (app + e)[|app|..|app| + n] == e[..n] == Front(SegmentOf(c, o, a));
    CrcOver(c, o, a);
  }

  lemma CrcOver(c: Config, o: Origin, a: Route)
    requires ConfigOk(c) && RouteOk(a)
    ensures
      var app := RouteBytes(a);
      CrcFor(c, o, [], app) ==
      S4(CpMessage(Head(c, o, WordsOf(c, o, a)), app, Front(SegmentFor(c, 0)),
                   LowByte((|app| + |Encode(SegmentOf(c, o, a))|) / 2)), PRESET)
  {
    hide Head, S4, LowByte, RouteBytes, Front, Back;
  }

  // The target's exact answer to a built request with any such path: refused for a
  // foreign network identity, refused for a conflicting configuration CRC, accepted
  // in every other case.
  lemma RouteAgreement(c: Config, o: Origin, a: Route, tunid: Unid, scid: bv32)
    requires ConfigOk(c) && RouteOk(a) && UnidOk(tunid)
    ensures Open(Build(c, o, [], RouteBytes(a)), tunid, scid) ==
      if tunid != c.tunid then Refused(0x080E)
      else if scid != 0 && c.sccrc != 0 && c.sccrc != scid then Refused(0x0111)
      else Accepted
  {
    hide ParseRequest, SeenOn, FindSafety, S4, UnidBytes, Parse, CpMessage, LowByte, Build, CrcFor, Encode, RouteBytes;
    hide Sent;
    var sd, app, s := Build(c, o, [], RouteBytes(a)), RouteBytes(a), SegmentOf(c, o, a);
    var e := Encode(s);
    BuiltBytes(c, o, a);
    WholeRequest(sd);
    RouteWalked(a, s);
    SegmentRead(s);
    SentKeeps(s);
    SameMessage(c, o, a);
    UnidBytesInjective(c.tunid, tunid);
    StartsSegment(s);
  }

  lemma StartsSegment(s: Segment)
    requires SegmentOk(s)
    ensures |Encode(s)| >= 56 && Encode(s)[0] == 0x50
  {
    hide Front, Back;
    FrontFields(s, Encode(s));
  }

  lemma SentKeeps(s: Segment)
    ensures Sent(s).tunid == s.tunid && Sent(s).cpcrc == s.cpcrc && Sent(s).sccrc == s.sccrc
    ensures Sent(s).format == s.format
  {}
}
