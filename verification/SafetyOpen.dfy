// Opening a safety connection: the originator builds a request that carries a
// CRC over its own parameters, and the target computes that CRC again from what
// it has parsed and walked.
module SafetyOpen {
  import opened Numbers
  import opened Options
  import opened Words
  import opened Crc
  import opened NetworkSegment
  import opened ConnectionPath
  import opened ForwardOpen
  import SafetyFrame
  import Identities

  // ---- The path CRC ----

  const PRESET: bv32 := 0xFFFF_FFFF

  function CpMessage(sd: seq<bv8>, app: seq<bv8>, nsd: seq<bv8>, pathWords: bv8): seq<bv8>
    requires |sd| >= 36
  {
    sd[10..14] + sd[18..35] + [pathWords] + app + nsd
  }

  function LowByte(n: nat): bv8 { (n % 256) as bv8 }

  lemma LowByteCount(n: nat)
    requires n < 256
    ensures Value(LowByte(n)) == n
  {}

  // ---- The originator ----

  datatype Config = Config(
    consumed: bv32, produced: bv32, config: bv32, consumedSize: nat, producedSize: nat, otSize: bv16, toSize: bv16,
    rpi: bv32, otRpi: bv32, toRpi: bv32, format: SafetyFrame.Format, tunid: Unid, ounid: Unid, sccrc: bv32,
    scts: seq<bv8>,
    ping: bv16, coordMin: bv16, expectation: bv16, timeout: bv8, maxFault: bv16,
    initialTs: bv16, initialRollover: bv16, multiplier: bv8, priority: bv8, ticks: bv8)

  predicate ConfigOk(c: Config) { UnidOk(c.tunid) && UnidOk(c.ounid) && |c.scts| == 6 }

  datatype Origin = Origin(serial: bv16, vendor: bv16, device: bv32, trigger: bv8)

  function Byte32(v: bv32): bv8 { B0(v) }

  function DefaultPath(c: Config): (r: seq<bv8>)
    ensures |r| == 8
  {
    [0x20, 0x04, 0x24, Byte32(c.config), 0x2C, Byte32(c.consumed), 0x2C, Byte32(c.produced)]
  }

  function SegmentFor(c: Config, cpcrc: bv32): (s: Segment)
    requires ConfigOk(c)
    ensures SegmentOk(s) && (Extended(s) <==> c.format == SafetyFrame.Extended) && (s.format == 0 || s.format == 2)
  {
    Segment(if c.format == SafetyFrame.Extended then 0x02 else 0x00, c.sccrc,
            if c.sccrc != 0 then c.scts else [0, 0, 0, 0, 0, 0], 0, 0, c.tunid, c.ounid,
            c.ping, c.coordMin, c.expectation, c.timeout, 1, c.maxFault, cpcrc, 0xFFFF_FFFF, c.initialTs,
            c.initialRollover)
  }

  // What is left zero is filled in: sizes from the data, rates from the default.
  function SizeOr(given: bv16, n: nat, format: SafetyFrame.Format): bv16 {
    if given != 0 then given else (SafetyFrame.WireSize(n, format) % 0x1_0000) as bv16
  }

  function RpiOr(given: bv32, rpi: bv32): bv32 { if given != 0 then given else rpi }

  function OtParams(c: Config): bv16 { SafetyParams(SizeOr(c.otSize, c.consumedSize, c.format)) }

  function ToParams(c: Config): bv16 { SafetyParams(SizeOr(c.toSize, c.producedSize, c.format)) }

  function ToId(o: Origin): bv32 { 0x1000_0000 | (o.serial as bv32) }

  function Head(c: Config, o: Origin, words: bv8): (r: seq<bv8>)
    ensures |r| == 36 && r[35] == words
  {
    [c.priority, c.ticks] + Le32(0) + Le32(ToId(o)) + Le16(o.serial) + Le16(o.vendor) + Le32(o.device) +
    [c.multiplier, 0, 0, 0] + Le32(RpiOr(c.otRpi, c.rpi)) + Le16(OtParams(c)) + Le32(RpiOr(c.toRpi, c.rpi)) +
    Le16(ToParams(c)) + [o.trigger, words]
  }

  // The CRC is taken with the field for it still zero, over everything up to
  // that field, and with the path size the target will see.
  function CrcFor(c: Config, o: Origin, route: seq<bv8>, app: seq<bv8>): bv32
    requires ConfigOk(c)
  {
    var seg := SegmentFor(c, 0);
    var words := LowByte((|route| + |app| + |Encode(seg)|) / 2);
    S4(CpMessage(Head(c, o, words), app, Front(seg), LowByte((|app| + |Encode(seg)|) / 2)), PRESET)
  }

  function Build(c: Config, o: Origin, route: seq<bv8>, appIn: seq<bv8>): seq<bv8>
    requires ConfigOk(c)
  {
    var app := if appIn == [] then DefaultPath(c) else appIn;
    var seg := SegmentFor(c, CrcFor(c, o, route, app));
    Head(c, o, LowByte((|route| + |app| + |Encode(seg)|) / 2)) + route + app + Encode(seg)
  }

  // ---- The target ----

  datatype Verdict = Accepted | Plain | Refused(status: nat)

  // Where the path CRC stands in a segment: what is in front of it is covered.
  function Covered(format: bv8): nat { if format == 0x02 then 50 else 48 }

  function Validate(segment: seq<bv8>, req: Request, tunid: Unid, scid: bv32): Verdict
    requires UnidOk(tunid) && |req.raw| >= 36
  {
    if |segment| < 3 || segment[0] != 0x50 then Refused(0x080E)
    else
      var parsed := Parse(segment);
      if !parsed.Taken? || UnidBytes(parsed.segment.tunid) != UnidBytes(tunid) then Refused(0x080E)
      else
        var seg, found := parsed.segment, FindSafety(req.path);
        if found.None? || found.value + Covered(seg.format) > |req.path| then Refused(0x080E)
        else
          var off := found.value;
          var message := CpMessage(req.raw, req.path[..off], req.path[off..off + Covered(seg.format)],
                                   LowByte((off + (|req.path| - off)) / 2));
          if S4(message, PRESET) != seg.cpcrc then Refused(0x080D)
          else if scid != 0 && seg.sccrc != 0 && seg.sccrc != scid then Refused(0x0111)
          else Accepted
  }

  // A path without a safety segment opens an ordinary connection.
  function Open(data: seq<bv8>, tunid: Unid, scid: bv32): Verdict
    requires UnidOk(tunid)
  {
    var req := ParseRequest(data, false);
    if req.None? then Refused(0x0118)
    else
      var segment := SeenOn(req.value.path).safety;
      if segment == [] then Plain else Validate(segment, req.value, tunid, scid)
  }

  // Whatever the walk captures: if it is no complete safety segment, or one for another
  // node, or the search finds too little, it is refused, and so is a request that cannot
  // be parsed.
  lemma SegmentRefused(data: seq<bv8>, tunid: Unid, scid: bv32)
    requires UnidOk(tunid)
    ensures ParseRequest(data, false).None? ==> Open(data, tunid, scid) == Refused(0x0118)
    ensures ParseRequest(data, false).Some? ==>
      var path := ParseRequest(data, false).value.path;
      var segment, found := SeenOn(path).safety, FindSafety(path);
      if segment == [] then Open(data, tunid, scid) == Plain
      else
        (!Parse(segment).Taken? || Parse(segment).segment.tunid != tunid ||
         found.None? || found.value + 48 > |path|) ==>
        Open(data, tunid, scid) == Refused(0x080E)
  {
    hide ParseRequest, SeenOn, FindSafety, CpMessage, S4, ParseTarget, UnidBytes;
    if ParseRequest(data, false).Some? {
      var parsed := Parse(SeenOn(ParseRequest(data, false).value.path).safety);
      ParsedUnid(SeenOn(ParseRequest(data, false).value.path).safety);
      if parsed.Taken? { UnidBytesInjective(parsed.segment.tunid, tunid); }
    }
  }

  lemma ParsedUnid(d: seq<bv8>)
    ensures Parse(d).Taken? ==> UnidOk(Parse(d).segment.tunid)
  {
    hide Read16, Read32;
  }

  // ---- Requests of the usual shape ----

  function SegmentSize(format: bv8): nat { if format == 0x02 then 62 else 56 }

  // Eight bytes that name a class and three assemblies.
  predicate Shortcut(p: seq<bv8>) {
    |p| == 8 && p[0] == 0x20 && p[2] == 0x24 && p[4] == 0x2C && p[6] == 0x2C
  }

  predicate SegmentStart(p: seq<bv8>) {
    |p| >= 3 && p[0] == 0x50 && (p[2] == 0x00 || p[2] == 0x02) && |p| >= SegmentSize(p[2]) && |p| == 2 + 2 * Value(p[1])
  }

  // A request whose path is eight bytes and a complete segment.
  predicate Framed(sd: seq<bv8>) { |sd| >= 47 && SegmentStart(sd[44..]) && |sd| == 36 + 2 * Value(sd[35]) }

  predicate Shaped(sd: seq<bv8>) { Framed(sd) && Shortcut(sd[36..44]) }

  lemma LogicalStep(path: seq<bv8>, off: nat)
    requires off + 1 < |path| && (path[off] == 0x20 || path[off] == 0x24 || path[off] == 0x2C)
    ensures SegmentAt(path, off) == Logical(
      if path[off] == 0x20 then Class else if path[off] == 0x24 then Instance else Point, Wide(path[off + 1]), off + 2)
  {}

  lemma SafetyStep(path: seq<bv8>, off: nat)
    requires off < |path| && path[off] == 0x50
    ensures SegmentAt(path, off) == Safety
  {}

  lemma LogicalWalk(path: seq<bv8>, off: nat, s: Seen) returns (t: Seen)
    requires off + 1 < |path| && (path[off] == 0x20 || path[off] == 0x24 || path[off] == 0x2C)
    ensures Walk(path, off, s) == Walk(path, off + 2, t) && Find(path, off) == Find(path, off + 2)
    ensures
      var kind := if path[off] == 0x20 then Class else if path[off] == 0x24 then Instance else Point;
      t == Note(s, kind, Wide(path[off + 1]))
  {
    hide SegmentAt, Wide;
    LogicalStep(path, off);
    t := Note(s, SegmentAt(path, off).kind, Wide(path[off + 1]));
  }

  // What the default path names.
  function ShortcutSeen(path: seq<bv8>): Seen
    requires |path| >= 8
  {
    Seen(false, Some(Wide(path[1])), Some(Wide(path[3])), [Wide(path[5]), Wide(path[7])], [Wide(path[3])], [], [])
  }

  lemma ShortcutStarts(path: seq<bv8>)
    requires |path| > 8 && Shortcut(path[..8])
    ensures path[0] == 0x20 && path[2] == 0x24 && path[4] == 0x2C && path[6] == 0x2C
  {
    var p := path[..8];
    assert p[0] == path[0] && p[2] == path[2] && p[4] == path[4] && p[6] == path[6];
  }

  lemma TwoLogicals(path: seq<bv8>, off: nat, s: Seen, a: Kind, b: Kind)
    requires off + 3 < |path| && IsKind(path[off], a) && IsKind(path[off + 2], b)
    ensures Walk(path, off, s) == Walk(path, off + 4, Note(Note(s, a, Wide(path[off + 1])), b, Wide(path[off + 3])))
    ensures Find(path, off) == Find(path, off + 4)
  {
    hide Walk, Find, Wide, Note;
    var t := LogicalWalk(path, off, s);
    t := LogicalWalk(path, off + 2, t);
  }

  predicate IsKind(b: bv8, kind: Kind) {
    match kind
    case Class => b == 0x20
    case Instance => b == 0x24
    case Point => b == 0x2C
    case Other => false
  }

  lemma ShortcutWalk(path: seq<bv8>)
    requires |path| > 8 && Shortcut(path[..8])
    ensures Walk(path, 0, Nothing()) == Walk(path, 8, ShortcutSeen(path))
    ensures Find(path, 0) == Find(path, 8)
  {
    hide Walk, Find, Wide, Note, Shortcut;
    ShortcutStarts(path);
    TwoLogicals(path, 0, Nothing(), Class, Instance);
    TwoLogicals(path, 4, Note(Note(Nothing(), Class, Wide(path[1])), Instance, Wide(path[3])), Point, Point);
    ShortcutNotes(path);
  }

  lemma ShortcutNotes(path: seq<bv8>)
    requires |path| >= 8
    ensures
      Note(Note(Note(Note(Nothing(), Class, Wide(path[1])), Instance, Wide(path[3])), Point, Wide(path[5])),
           Point, Wide(path[7])) == ShortcutSeen(path)
  {
    hide Wide;
  }

  // Such a path has its one safety segment at offset 8, and both walks say so.
  lemma ShortcutFound(path: seq<bv8>)
    requires |path| > 8 && Shortcut(path[..8]) && SegmentStart(path[8..])
    ensures SeenOn(path) == ShortcutSeen(path).(safety := path[8..]) && FindSafety(path) == Some(8)
  {
    hide SegmentAt, Shortcut, Walk, Wide;
    NoWrapper(path);
    assert path[0..] == path;
    ShortcutWalk(path);
    assert path[8..][0] == path[8] && path[8..][1] == path[9];
    SafetyStep(path, 8);
    EndsWalk(path, ShortcutSeen(path));
  }

  lemma NoWrapper(path: seq<bv8>)
    requires |path| > 8 && Shortcut(path[..8])
    ensures Base(path) == 0
  {
    assert path[..8][0] == path[0] == 0x20;
  }

  lemma EndsWalk(path: seq<bv8>, t: Seen)
    requires |path| > 9 && SegmentAt(path, 8) == Safety && |path| == 10 + 2 * Value(path[9])
    ensures Walk(path, 8, t) == t.(safety := path[8..])
    ensures Find(path, 8) == Some(8)
  {
    hide SegmentAt, Value;
    assert SafetyEnd(path, 8) == Some(|path|);
    assert path[8..|path|] == path[8..];
  }

  // ---- What the target makes of such a request ----

  // Where the path CRC stands in the request.
  function CrcAt(sd: seq<bv8>): nat
    requires Framed(sd)
  {
    44 + Covered(sd[46])
  }

  // The bytes it covers.
  function CoveredBytes(sd: seq<bv8>): seq<bv8>
    requires Framed(sd)
  {
    sd[10..14] + sd[18..CrcAt(sd)]
  }

  predicate CrcHolds(sd: seq<bv8>)
    requires Framed(sd)
  {
    S4(CoveredBytes(sd), PRESET) == Read32(sd[CrcAt(sd)..CrcAt(sd) + 4])
  }

  function Judge(sd: seq<bv8>, tunid: Unid, scid: bv32): Verdict
    requires Framed(sd) && UnidOk(tunid)
  {
    var sccrc := Read32(sd[48..52]);
    if UnidBytes(ReadUnid(sd[64..74])) != UnidBytes(tunid) then Refused(0x080E)
    else if !CrcHolds(sd) then Refused(0x080D)
    else if scid != 0 && sccrc != 0 && sccrc != scid then Refused(0x0111)
    else Accepted
  }

  lemma ShapedRequest(sd: seq<bv8>)
    requires Framed(sd)
    ensures ParseRequest(sd, false).Some?
    ensures var r := ParseRequest(sd, false).value; r.path == sd[36..] && r.raw == sd
  {
    hide ParsedHead, Value;
    assert sd[..|sd|] == sd && sd[36..|sd|] == sd[36..];
    HeadKeeps(sd, sd[36..], sd);
  }

  lemma HeadKeeps(d: seq<bv8>, path: seq<bv8>, raw: seq<bv8>)
    requires |d| >= 36
    ensures ParsedHead(d, false, path, raw).path == path && ParsedHead(d, false, path, raw).raw == raw
  {
    hide Read16, Read32, Parse16, Parse32;
  }

  lemma ShapedSegment(seg: seq<bv8>)
    requires SegmentStart(seg)
    ensures Parse(seg) == Taken(ParseTarget(seg), |seg|)
  {
    hide ParseTarget, Value;
    TotalIs(seg);
  }

  lemma TotalIs(d: seq<bv8>)
    requires |d| >= 2
    ensures Total(d) == 2 + 2 * Value(d[1])
  {}

  lemma TargetFields(seg: seq<bv8>)
    requires SegmentStart(seg)
    ensures ParseTarget(seg).format == seg[2] && ParseTarget(seg).sccrc == Read32(seg[4..8])
    ensures ParseTarget(seg).tunid == ReadUnid(seg[20..30])
    ensures ParseTarget(seg).cpcrc == Read32(seg[Covered(seg[2])..Covered(seg[2]) + 4])
  {
    hide Read16, Read32, ReadUnid, Value;
  }

  lemma MessageIsCovered(sd: seq<bv8>)
    requires Framed(sd)
    ensures var path, n := sd[36..], Covered(sd[46]);
      CpMessage(sd, path[..8], path[8..8 + n], LowByte((8 + (|path| - 8)) / 2)) == CoveredBytes(sd)
  {
    hide Shortcut, LowByte, Value;
    var path, n := sd[36..], Covered(sd[46]);
    WordsAgree(sd[35], (8 + (|path| - 8)) / 2);
    assert sd[44..][2] == sd[46];
    assert path[..8] == sd[36..44] && path[8..8 + n] == sd[44..44 + n];
    assert sd[18..35] + [sd[35]] == sd[18..36];
    assert sd[18..36] + sd[36..44] + sd[44..44 + n] == sd[18..44 + n];
  }

  lemma WordsAgree(b: bv8, n: nat)
    requires n == Value(b)
    ensures LowByte(n) == b
  {
    hide Value, LowByte;
    LowByteOf(n);
    CountByte(b);
  }

  lemma LowByteOf(n: nat)
    requires n < 256
    ensures LowByte(n) == n as bv8
  {
    assert n % 256 == n;
  }

  lemma CountByte(b: bv8)
    ensures Value(b) as bv8 == b
  {}

  // Where the search finds the segment behind the eight bytes, whatever these are,
  // the walk captures it.
  lemma FoundIsSeen(path: seq<bv8>)
    requires FindSafety(path) == Some(8) && |path| > 9 && |path| == 10 + 2 * Value(path[9])
    ensures SeenOn(path).safety == path[8..]
  {
    hide SegmentAt, Value;
    var tail, at := path[Base(path)..], 8 - Base(path);
    var t := WalkPassesFound(tail, 0, Nothing());
    assert tail[at..] == path[8..] && tail[at + 1] == path[9];
    assert SafetyEnd(tail, at) == Some(|tail|);
    assert tail[at..|tail|] == path[8..];
  }

  // All the parsing and walking then comes down to comparing the bytes in their
  // places.
  lemma FoundIsJudge(sd: seq<bv8>, tunid: Unid, scid: bv32)
    requires Framed(sd) && FindSafety(sd[36..]) == Some(8) && UnidOk(tunid)
    ensures Open(sd, tunid, scid) == Judge(sd, tunid, scid)
  {
    hide ParseRequest, SeenOn, FindSafety, S4, Read32, ReadUnid;
    hide UnidBytes, Parse, ParseTarget, CpMessage, LowByte, Value;
    var path := sd[36..];
    ShapedRequest(sd);
    assert path[8..] == sd[44..] && sd[44..][1] == path[9];
    FoundIsSeen(path);
    ShapedSegment(sd[44..]);
    TargetFields(sd[44..]);
    SegmentSlices(sd);
    MessageIsCovered(sd);
  }

  // So it does for every request of the usual shape.
  lemma OpenIsJudge(sd: seq<bv8>, tunid: Unid, scid: bv32)
    requires Shaped(sd) && UnidOk(tunid)
    ensures Open(sd, tunid, scid) == Judge(sd, tunid, scid)
  {
    hide Open, Judge, SegmentStart, Shortcut, FindSafety, Value;
    var path := sd[36..];
    assert path[..8] == sd[36..44] && path[8..] == sd[44..];
    ShortcutFound(path);
    FoundIsJudge(sd, tunid, scid);
  }

  lemma SegmentSlices(sd: seq<bv8>)
    requires Framed(sd)
    ensures var seg, n := sd[44..], Covered(sd[46]);
      seg[2] == sd[46] && seg[4..8] == sd[48..52] && seg[20..30] == sd[64..74] && seg[n..n + 4] == sd[44 + n..48 + n]
  {
    hide Shortcut, Value;
  }

  // ---- What the originator builds ----

  lemma FrontIgnoresCrc(c: Config, x: bv32, y: bv32)
    requires ConfigOk(c)
    ensures Front(SegmentFor(c, x)) == Front(SegmentFor(c, y))
  {
    hide Le16, Le32, UnidBytes;
  }

  function WordsFor(c: Config): bv8 { if c.format == SafetyFrame.Extended then 35 else 32 }

  lemma WordsForCount(c: Config)
    ensures Value(WordsFor(c)) == if c.format == SafetyFrame.Extended then 35 else 32
    ensures LowByte(32) == 32 && LowByte(35) == 35
  {
    LowByteCount(32);
    LowByteCount(35);
  }

  lemma BuildParts(c: Config, o: Origin)
    requires ConfigOk(c)
    ensures var seg := SegmentFor(c, CrcFor(c, o, [], DefaultPath(c)));
      Build(c, o, [], []) == Head(c, o, WordsFor(c)) + DefaultPath(c) + Front(seg) + Le32(seg.cpcrc) + Back(seg)
  {
    hide Head, CrcFor, DefaultPath, Front, Le32, Back, SegmentFor, LowByte;
    WordsForCount(c);
    var seg := SegmentFor(c, CrcFor(c, o, [], DefaultPath(c)));
    assert Head(c, o, WordsFor(c)) + [] == Head(c, o, WordsFor(c));
    assert Head(c, o, WordsFor(c)) + DefaultPath(c) + Encode(seg) ==
      Head(c, o, WordsFor(c)) + DefaultPath(c) + Front(seg) + Le32(seg.cpcrc) + Back(seg);
  }

  // A built request is its head, the default path and the segment.
  lemma BuiltPlaces(c: Config, o: Origin)
    requires ConfigOk(c)
    ensures
      var sd, seg := Build(c, o, [], []), SegmentFor(c, CrcFor(c, o, [], DefaultPath(c)));
      |sd| == 44 + |Encode(seg)| && sd[..36] == Head(c, o, WordsFor(c)) && sd[35] == WordsFor(c) &&
      sd[36..44] == DefaultPath(c) && sd[44..] == Encode(seg) && Front(seg) <= sd[44..]
  {
    hide Head, CrcFor, Le32, Back, Front, LowByte, DefaultPath, SegmentFor, Build;
    var sd := Build(c, o, [], []);
    var seg := SegmentFor(c, CrcFor(c, o, [], DefaultPath(c)));
    BuildParts(c, o);
    assert sd == Head(c, o, WordsFor(c)) + (DefaultPath(c) + Encode(seg));
    assert sd[..36][35] == sd[35];
  }

  lemma SegmentStarts(seg: Segment)
    requires SegmentOk(seg) && (seg.format == 0x00 || seg.format == 0x02)
    ensures SegmentStart(Encode(seg)) && Encode(seg)[2] == seg.format
  {
    hide Front, Le32, Back, Value;
    FrontFields(seg, Encode(seg));
    SegmentWords(seg);
  }

  lemma BuiltShaped(c: Config, o: Origin)
    requires ConfigOk(c)
    ensures Shaped(Build(c, o, [], []))
    ensures Build(c, o, [], [])[46] == if c.format == SafetyFrame.Extended then 0x02 else 0x00
  {
    hide Head, CrcFor, Encode, LowByte, Value, Build, SegmentStart;
    var sd := Build(c, o, [], []);
    var seg := SegmentFor(c, CrcFor(c, o, [], DefaultPath(c)));
    BuiltPlaces(c, o);
    SegmentStarts(seg);
    WordsForCount(c);
    assert sd[44..][2] == sd[46];
  }

  lemma SegmentWords(s: Segment)
    requires SegmentOk(s)
    ensures 2 + 2 * Value(if Extended(s) then 0x1E else 0x1B) == |Encode(s)|
  {}

  lemma BuiltSlices(sd: seq<bv8>, head: seq<bv8>, app: seq<bv8>, front: seq<bv8>, crc: seq<bv8>, back: seq<bv8>)
    requires sd == head + app + front + crc + back && |head| == 36 && |app| == 8 && |crc| == 4
    ensures sd[10..14] == head[10..14] && sd[18..44 + |front|] == head[18..] + app + front
    ensures sd[44 + |front|..48 + |front|] == crc
  {}

  lemma CrcForIs(c: Config, o: Origin)
    requires ConfigOk(c)
    ensures var head := Head(c, o, WordsFor(c));
      CrcFor(c, o, [], DefaultPath(c)) ==
      S4(head[10..14] + (head[18..] + DefaultPath(c) + Front(SegmentFor(c, 0))), PRESET)
  {
    hide Head, Front, SegmentFor, DefaultPath, LowByte, S4;
    var head, app, seg := Head(c, o, WordsFor(c)), DefaultPath(c), SegmentFor(c, 0);
    WordsForCount(c);
    assert head[18..35] + [head[35]] == head[18..];
    assert head[10..14] + head[18..35] + [WordsFor(c)] + app + Front(seg) ==
      head[10..14] + (head[18..] + app + Front(seg));
  }

  lemma BuiltCrcHolds(c: Config, o: Origin)
    requires ConfigOk(c)
    ensures Shaped(Build(c, o, [], [])) && CrcHolds(Build(c, o, [], []))
  {
    hide Le32, Front, Back, Head, S4, DefaultPath, Read32, Shaped, LowByte, Encode, CrcFor, Build;
    BuiltShaped(c, o);
    BuildParts(c, o);
    var sd, app, crc := Build(c, o, [], []), DefaultPath(c), CrcFor(c, o, [], DefaultPath(c));
    var seg, head := SegmentFor(c, crc), Head(c, o, WordsFor(c));
    FrontIgnoresCrc(c, 0, crc);
    BuiltSlices(sd, head, app, Front(seg), Le32(crc), Back(seg));
    CrcForIs(c, o);
    Read32Le32(crc);
  }

  // ---- Agreement ----

  // Whatever the configuration and the identities, the target's answer to a
  // request built without a route and with the default path depends on its own
  // network identity and its stored configuration alone.
  lemma OpenAgreement(c: Config, o: Origin, tunid: Unid, scid: bv32)
    requires ConfigOk(c) && UnidOk(tunid)
    ensures Open(Build(c, o, [], []), tunid, scid) ==
      if tunid != c.tunid then Refused(0x080E)
      else if scid != 0 && c.sccrc != 0 && c.sccrc != scid then Refused(0x0111)
      else Accepted
  {
    hide Build, Shaped, CrcHolds, Read32, UnidBytes, ReadUnid;
    var sd := Build(c, o, [], []);
    BuiltCrcHolds(c, o);
    OpenIsJudge(sd, tunid, scid);
    BuiltFields(c, o);
    UnidRoundTrip(c.tunid);
    Read32Le32(c.sccrc);
    UnidBytesInjective(c.tunid, tunid);
  }

  lemma UnidBytesInjective(a: Unid, b: Unid)
    requires UnidOk(a) && UnidOk(b)
    ensures UnidBytes(a) == UnidBytes(b) <==> a == b
  {
    hide UnidBytes, ReadUnid;
    UnidRoundTrip(a);
    UnidRoundTrip(b);
  }

  lemma BuiltFields(c: Config, o: Origin)
    requires ConfigOk(c)
    ensures |Build(c, o, [], [])| >= 92
    ensures Build(c, o, [], [])[48..52] == Le32(c.sccrc) && Build(c, o, [], [])[64..74] == UnidBytes(c.tunid)
  {
    hide Head, CrcFor, DefaultPath, Le32, Back, Front, UnidBytes, Build;
    BuildParts(c, o);
    var sd := Build(c, o, [], []);
    var seg := SegmentFor(c, CrcFor(c, o, [], DefaultPath(c)));
    assert sd[44..] == Front(seg) + Le32(seg.cpcrc) + Back(seg);
    FrontFields(seg, sd[44..]);
    assert sd[44..][4..8] == sd[48..52] && sd[44..][20..30] == sd[64..74];
  }

  // ---- What both ends know of each other ----

  // The head of a built request as the fields of a parsed one.
  function HeadOf(c: Config, o: Origin): Request {
    Request(c.priority, c.ticks, 0, ToId(o), o.serial, o.vendor, o.device, c.multiplier, RpiOr(c.otRpi, c.rpi),
            Parse16(OtParams(c)), RpiOr(c.toRpi, c.rpi), Parse16(ToParams(c)), o.trigger, [], [])
  }

  lemma HeadIsHeadBytes(c: Config, o: Origin, words: bv8)
    ensures Head(c, o, words) == HeadBytes(HeadOf(c, o), Of16(OtParams(c)), Of16(ToParams(c)), words)
  {
    hide Le16, Le32, OtParams, ToParams, RpiOr, ToId, Parse16;
  }

  // The target reads from a built request the originator's identity, its rates
  // and its parameters.
  lemma BuiltRead(c: Config, o: Origin)
    requires ConfigOk(c)
    ensures var sd := Build(c, o, [], []);
      |sd| >= 36 && ParseRequest(sd, false) == Some(HeadOf(c, o).(path := sd[36..], raw := sd))
  {
    hide HeadOf, Head, HeadBytes, OtParams, ToParams, Encode;
    hide SegmentFor, CrcFor, DefaultPath, Build, ParseRequest, Value;
    var sd := Build(c, o, [], []);
    BuiltPlaces(c, o);
    HeadIsHeadBytes(c, o, WordsFor(c));
    assert sd == sd[..36] + sd[36..];
    BuiltPathSize(c, o);
    HeadRead(HeadOf(c, o), Of16(OtParams(c)), Of16(ToParams(c)), WordsFor(c), sd[36..]);
    ParamsRead(c, o);
  }

  lemma ParamsRead(c: Config, o: Origin)
    ensures HeadOf(c, o).ot == ParamsOf(Of16(OtParams(c))) && HeadOf(c, o).to == ParamsOf(Of16(ToParams(c)))
  {
    hide OtParams, ToParams, Parse16, RpiOr, ToId;
  }

  lemma BuiltPathSize(c: Config, o: Origin)
    requires ConfigOk(c)
    ensures |Build(c, o, [], [])| == 36 + 2 * Value(WordsFor(c))
  {
    hide Head, CrcFor, LowByte, Value, Build, Front, Back;
    BuiltPlaces(c, o);
    WordsForCount(c);
  }

  // The size of a frame with this much data, in sixteen bits.
  function WireWord(n: nat, format: SafetyFrame.Format): bv16 {
    ((if n <= 2 then n + 6 else 2 * n + 8) % 0x1_0000) as bv16
  }

  function Safely(size: bv16): Params { Params(false, 2, 1, false, size & 0x01FF) }

  // In terms of the configuration: what it leaves zero is filled in, both directions
  // are point-to-point and of high priority, and the target's connection id is
  // made of the serial number.
  lemma BuiltRates(c: Config, o: Origin)
    requires ConfigOk(c)
    ensures ParseRequest(Build(c, o, [], []), false).Some?
    ensures
      var r := ParseRequest(Build(c, o, [], []), false).value;
      r.serial == o.serial && r.vendor == o.vendor && r.originator == o.device && r.trigger == o.trigger &&
      r.priority == c.priority && r.ticks == c.ticks && r.multiplier == c.multiplier &&
      r.otId == 0 && MadeOf(r.toId, o.serial) &&
      r.otRpi == (if c.otRpi == 0 then c.rpi else c.otRpi) && r.toRpi == (if c.toRpi == 0 then c.rpi else c.toRpi) &&
      r.ot == Safely(if c.otSize == 0 then WireWord(c.consumedSize, c.format) else c.otSize) &&
      r.to == Safely(if c.toSize == 0 then WireWord(c.producedSize, c.format) else c.toSize)
  {
    hide Build, ParseRequest, HeadOf, WireWord;
    BuiltRead(c, o);
    HeadRates(c, o);
  }

  lemma HeadRates(c: Config, o: Origin)
    ensures
      var r := HeadOf(c, o);
      r.serial == o.serial && r.vendor == o.vendor && r.originator == o.device && r.trigger == o.trigger &&
      r.priority == c.priority && r.ticks == c.ticks && r.multiplier == c.multiplier &&
      r.otId == 0 && MadeOf(r.toId, o.serial) &&
      r.otRpi == (if c.otRpi == 0 then c.rpi else c.otRpi) && r.toRpi == (if c.toRpi == 0 then c.rpi else c.toRpi) &&
      r.ot == Safely(if c.otSize == 0 then WireWord(c.consumedSize, c.format) else c.otSize) &&
      r.to == Safely(if c.toSize == 0 then WireWord(c.producedSize, c.format) else c.toSize)
  {
    hide SafetyParams, Parse16, SizeOr, WireWord, Safely, ToId, MadeOf;
    ReadSafely(SizeOr(c.otSize, c.consumedSize, c.format));
    ReadSafely(SizeOr(c.toSize, c.producedSize, c.format));
    SizeIs(c.otSize, c.consumedSize, c.format);
    SizeIs(c.toSize, c.producedSize, c.format);
    IdIs(o);
  }

  lemma ReadSafely(size: bv16)
    ensures Parse16(SafetyParams(size)) == Safely(size)
  {
    hide SafetyParams, Parse16;
    SafetyParamsRead(size);
  }

  // The serial number in the low half, below a fixed top byte.
  predicate MadeOf(id: bv32, serial: bv16) { Le32(id) == Le16(serial) + [0x00, 0x10] }

  lemma IdIs(o: Origin)
    ensures MadeOf(ToId(o), o.serial)
  {
    hide ToId, B0, B1, B2, B3, Lo, Hi;
    IdBytes(o);
  }

  lemma IdBytes(o: Origin)
    ensures var id := ToId(o);
      B0(id) == Lo(o.serial) && B1(id) == Hi(o.serial) && B2(id) == 0x00 && B3(id) == 0x10
  {}

  lemma SizeIs(given: bv16, n: nat, format: SafetyFrame.Format)
    ensures SizeOr(given, n, format) == if given == 0 then WireWord(n, format) else given
  {
    assert SafetyFrame.WireSize(n, format) == if n <= 2 then n + 6 else 2 * n + 8;
  }

  // And the assemblies that the configuration names.
  lemma BuiltNames(c: Config, o: Origin)
    requires ConfigOk(c)
    ensures var sd := Build(c, o, [], []);
      |sd| >= 36 && Named(SeenOn(sd[36..]), false, false) ==
      Assemblies(Some(Wide(Byte32(c.config))), Some(Wide(Byte32(c.consumed))), Some(Wide(Byte32(c.produced))))
  {
    hide CrcFor, Encode, Build, SegmentStart, SegmentFor, SeenOn, Wide, Byte32, Head;
    var sd := Build(c, o, [], []);
    BuiltShaped(c, o);
    BuiltPlaces(c, o);
    var path := sd[36..];
    assert path[..8] == sd[36..44] && path[8..] == sd[44..];
    ShortcutFound(path);
    assert path[..8][1] == path[1] && path[..8][3] == path[3] && path[..8][5] == path[5] && path[..8][7] == path[7];
    WideFour();
  }

  lemma WideFour()
    ensures Wide(0x04) == 4
  {}

  // And the whole safety segment: what the configuration sets stands in its field;
  // the last three are sent in the extended format only.
  predicate Carries(s: Segment, c: Config) {
    var extended := c.format == SafetyFrame.Extended;
    && s.format == (if extended then 0x02 else 0x00)
    && s.sccrc == c.sccrc && s.scts == (if c.sccrc == 0 then [0, 0, 0, 0, 0, 0] else c.scts)
    && s.tunid == c.tunid && s.ounid == c.ounid
    && s.ping == c.ping && s.coordMin == c.coordMin && s.expectation == c.expectation && s.timeout == c.timeout
    && s.epi == 0 && s.params == 0 && s.connectionId == 0xFFFF_FFFF && s.maxConsumer == 1
    && s.maxFault == (if extended then c.maxFault else 0)
    && s.initialTs == (if extended then c.initialTs else 0)
    && s.initialRollover == (if extended then c.initialRollover else 0)
  }

  function Sent(s: Segment): Segment {
    if Extended(s) then s else s.(maxFault := 0, initialTs := 0, initialRollover := 0)
  }

  lemma SentBytes(s: Segment)
    requires SegmentOk(s)
    ensures Encode(Sent(s)) == Encode(s)
  {
    hide Le16, Le32, UnidBytes;
  }

  lemma SentCarries(c: Config, cpcrc: bv32)
    requires ConfigOk(c)
    ensures Carries(Sent(SegmentFor(c, cpcrc)), c)
  {}

  lemma SegmentRead(s: Segment)
    requires SegmentOk(s) && (s.format == 0x00 || s.format == 0x02)
    ensures Parse(Encode(s)) == Taken(Sent(s), |Encode(s)|)
  {
    hide Encode, Parse;
    SentBytes(s);
    RoundTrip(Sent(s), []);
    assert Encode(s) + [] == Encode(s);
  }

  lemma BuiltSegmentRead(c: Config, o: Origin)
    requires ConfigOk(c)
    ensures
      var sd := Build(c, o, [], []);
      |sd| >= 36 && SeenOn(sd[36..]).safety != [] &&
      Parse(SeenOn(sd[36..]).safety).Taken? && Carries(Parse(SeenOn(sd[36..]).safety).segment, c)
  {
    hide Build, SeenOn, Parse, Encode, CrcFor, SegmentFor, Shortcut, SegmentStart, DefaultPath, Head, Carries;
    hide Sent, Front;
    var sd := Build(c, o, [], []);
    var seg := SegmentFor(c, CrcFor(c, o, [], DefaultPath(c)));
    BuiltShaped(c, o);
    BuiltPlaces(c, o);
    var path := sd[36..];
    assert path[..8] == sd[36..44] && path[8..] == sd[44..];
    ShortcutFound(path);
    SegmentRead(seg);
    SentCarries(c, CrcFor(c, o, [], DefaultPath(c)));
  }

  // And so both ends seed their codes alike.
  lemma SameSeeds(c: Config, o: Origin)
    requires ConfigOk(c)
    ensures ParseRequest(Build(c, o, [], []), false).Some?
    ensures
      var r := ParseRequest(Build(c, o, [], []), false).value;
      Identities.SeedsFor(r.vendor, r.originator, r.serial) == Identities.SeedsFor(o.vendor, o.device, o.serial)
  {
    hide Identities.SeedsFor, ParseRequest, Build;
    BuiltRead(c, o);
  }
}
