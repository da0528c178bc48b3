// The safety open as it runs: the originator fills a buffer and patches the CRC
// into it, the target assembles the covered bytes and checks in order.
module SafetyOpenWire {
  import opened Options
  import opened Words
  import opened Crc
  import opened SafetyCrc
  import opened NetworkSegment
  import opened ConnectionPath
  import opened ForwardOpen
  import opened FrameCodec
  import opened SafetyOpen
  import SafetyFrame

  predicate S4Table(t: seq<bv32>) { |t| == 256 && forall k :: 0 <= k < 256 ==> t[k] == S4At(k) }

  // Assembles the covered bytes, overwrites the path size among them, and takes
  // the CRC.
  method ComputeFromRaw(table: array<bv32>, sd: seq<bv8>, app: seq<bv8>, nsd: seq<bv8>, pathWords: bv8)
    returns (crc: Option<bv32>)
    requires S4Table(table[..])
    ensures crc ==
      if |sd| < 36 || (|nsd| != 48 && |nsd| != 50) then None else Some(S4(CpMessage(sd, app, nsd, pathWords), PRESET))
  {
    hide S4, S4At;
    if |sd| < 36 || (|nsd| != 48 && |nsd| != 50) { return None; }
    var buf := new bv8[4 + 18 + |app| + |nsd|];
    var off := Put(buf, 0, sd[10..14]);
    off := Put(buf, off, sd[18..36]);
    ghost var before := buf[..off];
    buf[off - 1] := pathWords;
    assert buf[..off] == before[21 := pathWords] == sd[10..14] + sd[18..35] + [pathWords];
    if app != [] {
      off := Put(buf, off, app);
    }
    off := Put(buf, off, nsd);
    assert buf[..off] == CpMessage(sd, app, nsd, pathWords);
    var c := ComputeS4(table, buf[..off], PRESET);
    crc := Some(c);
  }

  method WriteIdentity(out: array<bv8>, c: Config, o: Origin) returns (off: nat)
    requires out.Length >= 22
    modifies out
    ensures off == 22
    ensures out[..off] == [c.priority, c.ticks] + Le32(0) + Le32(ToId(o)) + Le16(o.serial) + Le16(o.vendor) +
      Le32(o.device) + [c.multiplier, 0, 0, 0]
    ensures forall i :: off <= i < out.Length ==> out[i] == old(out[i])
  {
    hide Le16, Le32, ToId;
    off := Put(out, 0, [c.priority, c.ticks]);
    off := Put(out, off, Le32(0));
    off := Put(out, off, Le32(ToId(o)));
    off := Put(out, off, Le16(o.serial));
    ghost var first := [c.priority, c.ticks] + Le32(0) + Le32(ToId(o)) + Le16(o.serial);
    assert out[..off] == first;
    off := Put(out, off, Le16(o.vendor));
    off := Put(out, off, Le32(o.device));
    off := Put(out, off, [c.multiplier, 0, 0, 0]);
  }

  method WriteTransport(out: array<bv8>, start: nat, c: Config, trigger: bv8, words: bv8) returns (off: nat)
    requires out.Length >= start + 14
    modifies out
    ensures off == start + 14
    ensures out[..off] == old(out[..start]) + Le32(RpiOr(c.otRpi, c.rpi)) + Le16(OtParams(c)) +
      Le32(RpiOr(c.toRpi, c.rpi)) + Le16(ToParams(c)) + [trigger, words]
    ensures forall i :: off <= i < out.Length ==> out[i] == old(out[i])
  {
    hide Le16, Le32, RpiOr, OtParams, ToParams;
    off := Put(out, start, Le32(RpiOr(c.otRpi, c.rpi)));
    off := Put(out, off, Le16(OtParams(c)));
    off := Put(out, off, Le32(RpiOr(c.toRpi, c.rpi)));
    off := Put(out, off, Le16(ToParams(c)));
    off := Put(out, off, [trigger, words]);
  }

  method WriteHead(out: array<bv8>, c: Config, o: Origin, words: bv8) returns (off: nat)
    requires out.Length >= 36
    modifies out
    ensures off == 36 && out[..off] == Head(c, o, words)
    ensures forall i :: off <= i < out.Length ==> out[i] == old(out[i])
  {
    hide Le16, Le32, RpiOr, OtParams, ToParams, ToId;
    off := WriteIdentity(out, c, o);
    off := WriteTransport(out, off, c, o.trigger, words);
  }

  // Overwrites bytes in the middle of a buffer.
  method Patch(out: array<bv8>, at: nat, bytes: seq<bv8>)
    requires at + |bytes| <= out.Length
    modifies out
    ensures var before := old(out[..]); out[..] == before[..at] + bytes + before[at + |bytes|..]
  {
    ghost var before := out[..];
    var off := Put(out, at, bytes);
    assert out[off..] == before[at + |bytes|..];
    assert out[..] == out[..off] + out[off..];
  }

  lemma MessageReadsHead(head: seq<bv8>, rest: seq<bv8>, app: seq<bv8>, nsd: seq<bv8>, words: bv8)
    requires |head| == 36
    ensures CpMessage(head + rest, app, nsd, words) == CpMessage(head, app, nsd, words)
  {
    assert (head + rest)[10..14] == head[10..14] && (head + rest)[18..35] == head[18..35];
  }

  lemma PatchedSegment(c: Config, x: bv32)
    requires ConfigOk(c)
    ensures var s := SegmentFor(c, 0); Encode(SegmentFor(c, x)) == Front(s) + Le32(x) + Back(s)
  {
    hide Le16, Le32, Front;
    FrontIgnoresCrc(c, 0, x);
  }

  lemma PatchInPlace(head: seq<bv8>, front: seq<bv8>, field: seq<bv8>, patch: seq<bv8>, back: seq<bv8>)
    requires |field| == |patch|
    ensures var whole, at := head + (front + field + back), |head| + |front|;
      whole[..at] + patch + whole[at + |patch|..] == head + (front + patch + back)
  {
    var whole, at := head + (front + field + back), |head| + |front|;
    assert whole[..at] == head + front && whole[at + |patch|..] == back;
    assert head + front + patch + back == head + (front + patch + back);
  }

  // The path of the request, in front of which its head will stand.
  method AssemblePath(c: Config, route: seq<bv8>, app: seq<bv8>) returns (path: seq<bv8>)
    requires ConfigOk(c)
    ensures path == route + app + Encode(SegmentFor(c, 0))
  {
    hide SegmentFor, Front, Back, Le32;
    var seg := SegmentFor(c, 0);
    var buf := new bv8[if Extended(seg) then 62 else 56];
    var n := EncodeSegment(buf, seg);
    assert buf[..n] == buf[..];
    path := route + app + buf[..];
  }

  // The request with the CRC field still zero.
  method Assemble(c: Config, o: Origin, route: seq<bv8>, app: seq<bv8>, words: bv8) returns (fwd: array<bv8>)
    requires ConfigOk(c)
    ensures fresh(fwd) && fwd[..] == Head(c, o, words) + (route + app + Encode(SegmentFor(c, 0)))
  {
    hide Head, SegmentFor, Encode;
    var path := AssemblePath(c, route, app);
    fwd := new bv8[36 + |path|];
    var off := WriteHead(fwd, c, o, words);
    off := Put(fwd, off, path);
    assert fwd[..] == fwd[..off];
  }

  lemma Unpatched(c: Config, head: seq<bv8>, route: seq<bv8>, app: seq<bv8>)
    requires ConfigOk(c)
    ensures var s := SegmentFor(c, 0);
      head + (route + app + Encode(s)) == (head + (route + app)) + (Front(s) + Le32(0) + Back(s))
  {
    hide Front, Back, Le32;
  }

  lemma Patched(c: Config, head: seq<bv8>, route: seq<bv8>, app: seq<bv8>, x: bv32)
    requires ConfigOk(c)
    ensures var s := SegmentFor(c, 0);
      (head + (route + app)) + (Front(s) + Le32(x) + Back(s)) == head + (route + app + Encode(SegmentFor(c, x)))
  {
    hide Front, Back, Le32, SegmentFor, Encode;
    PatchedSegment(c, x);
  }

  // The request with some value in the CRC field, and where that field stands.
  function SegmentLength(c: Config): nat { if c.format == SafetyFrame.Extended then 62 else 56 }

  function CoveredLength(c: Config): nat { if c.format == SafetyFrame.Extended then 50 else 48 }

  function WithCrc(c: Config, o: Origin, route: seq<bv8>, app: seq<bv8>, x: bv32): seq<bv8>
    requires ConfigOk(c)
  {
    Head(c, o, LowByte((|route| + |app| + SegmentLength(c)) / 2)) + (route + app + Encode(SegmentFor(c, x)))
  }

  lemma CoveredPart(c: Config, o: Origin, route: seq<bv8>, app: seq<bv8>)
    requires ConfigOk(c)
    ensures var w, start := WithCrc(c, o, route, app, 0), 36 + |route| + |app|;
      |w| == start + SegmentLength(c) && w[start..start + CoveredLength(c)] == Front(SegmentFor(c, 0)) &&
      S4(CpMessage(w, app, Front(SegmentFor(c, 0)), LowByte((|app| + SegmentLength(c)) / 2)), PRESET) ==
      CrcFor(c, o, route, app)
  {
    hide S4, Le32, Front, Back, Head, SegmentFor, LowByte, CpMessage;
    var s, head := SegmentFor(c, 0), Head(c, o, LowByte((|route| + |app| + SegmentLength(c)) / 2));
    Unpatched(c, head, route, app);
    MessageReadsHead(head, route + app + Encode(s), app, Front(s), LowByte((|app| + SegmentLength(c)) / 2));
  }

  lemma PatchedRequest(c: Config, o: Origin, route: seq<bv8>, app: seq<bv8>, x: bv32)
    requires ConfigOk(c)
    ensures var w, at := WithCrc(c, o, route, app, 0), 36 + |route| + |app| + CoveredLength(c);
      at + 4 <= |w| && w[..at] + Le32(x) + w[at + 4..] == WithCrc(c, o, route, app, x)
  {
    hide Le32, Front, Back, Head, SegmentFor, Encode, LowByte;
    var s, head := SegmentFor(c, 0), Head(c, o, LowByte((|route| + |app| + SegmentLength(c)) / 2));
    var front := head + (route + app);
    PatchInPlace(front, Front(s), Le32(0), Le32(x), Back(s));
    assert WithCrc(c, o, route, app, 0) == front + (Front(s) + Le32(0) + Back(s)) by { Unpatched(c, head, route, app); }
    assert WithCrc(c, o, route, app, x) == front + (Front(s) + Le32(x) + Back(s)) by {
      Patched(c, head, route, app, x);
    }
  }

  lemma BuildIsWithCrc(c: Config, o: Origin, route: seq<bv8>, appIn: seq<bv8>)
    requires ConfigOk(c)
    ensures var app := if appIn == [] then DefaultPath(c) else appIn;
      Build(c, o, route, appIn) == WithCrc(c, o, route, app, CrcFor(c, o, route, app))
  {
    hide Encode, Head, SegmentFor, LowByte, DefaultPath, CrcFor;
  }

  // The CRC over the request as it stands with the field still zero.
  method PathCrc(table: array<bv32>, c: Config, ghost o: Origin, route: seq<bv8>, app: seq<bv8>, fwd: seq<bv8>)
    returns (crc: bv32)
    requires S4Table(table[..]) && ConfigOk(c) && fwd == WithCrc(c, o, route, app, 0)
    ensures crc == CrcFor(c, o, route, app)
  {
    hide S4, S4Table, SegmentFor, Front, LowByte, CpMessage, CrcFor, WithCrc;
    CoveredPart(c, o, route, app);
    var start := 36 + |route| + |app|;
    var nsd := fwd[start..start + CoveredLength(c)];
    var computed := ComputeFromRaw(table, fwd, app, nsd, LowByte((|app| + SegmentLength(c)) / 2));
    crc := computed.value;
  }

  method BuildRequest(table: array<bv32>, c: Config, o: Origin, route: seq<bv8>, appIn: seq<bv8>)
    returns (fwd: array<bv8>)
    requires S4Table(table[..]) && ConfigOk(c)
    ensures fwd[..] == Build(c, o, route, appIn)
  {
    hide S4Table, Le32, Build, Head, Encode, SegmentFor, LowByte, DefaultPath, CrcFor;
    var app := if appIn == [] then DefaultPath(c) else appIn;
    BuildIsWithCrc(c, o, route, appIn);
    fwd := Assemble(c, o, route, app, LowByte((|route| + |app| + SegmentLength(c)) / 2));
    var crc := PathCrc(table, c, o, route, app, fwd[..]);
    PatchedRequest(c, o, route, app, crc);
    Patch(fwd, 36 + |route| + |app| + CoveredLength(c), Le32(crc));
  }

  // The target's checks, in order.
  method ValidateSafetyOpen(table: array<bv32>, segment: seq<bv8>, req: Request, tunid: Unid, scid: bv32)
    returns (v: Verdict)
    requires S4Table(table[..]) && UnidOk(tunid) && |req.raw| >= 36
    ensures v == Validate(segment, req, tunid, scid)
  {
    hide S4, S4Table, Parse, UnidBytes, FindSafety, CpMessage, LowByte;
    if |segment| < 3 || segment[0] != 0x50 { return Refused(0x080E); }
    var parsed := ParseFrom(segment);
    if !parsed.Taken? { return Refused(0x080E); }
    ParsedUnid(segment);
    var seg := parsed.segment;
    if UnidBytes(tunid) != UnidBytes(seg.tunid) { return Refused(0x080E); }
    var found := FindSafetySegment(req.path);
    if found.None? { return Refused(0x080E); }
    FoundInside(req.path);
    var off := found.value;
    var app := req.path[..off];
    var size := if seg.format == 0x02 then 50 else 48;
    if off + size > |req.path| { return Refused(0x080E); }
    var nsd := req.path[off..off + size];
    var computed := ComputeFromRaw(table, req.raw, app, nsd, LowByte((|app| + (|req.path| - off)) / 2));
    if computed != Some(seg.cpcrc) { return Refused(0x080D); }
    if scid == 0 { return Accepted; }
    if seg.sccrc != 0 && seg.sccrc != scid { return Refused(0x0111); }
    return Accepted;
  }

  lemma ParsedUnid(d: seq<bv8>)
    requires Parse(d).Taken?
    ensures UnidOk(Parse(d).segment.tunid)
  {
    hide Read16, Read32;
  }

  lemma FoundInside(path: seq<bv8>)
    requires FindSafety(path).Some?
    ensures FindSafety(path).value < |path|
  {}
}
