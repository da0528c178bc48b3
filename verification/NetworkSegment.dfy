// The safety network segment of a Forward Open path.
module NetworkSegment {
  import opened Words
  import opened FrameCodec

  // Six bytes of network number and a node address.
  datatype Unid = Unid(snn: seq<bv8>, node: bv32)

  predicate UnidOk(u: Unid) { |u.snn| == 6 }

  function UnidBytes(u: Unid): (r: seq<bv8>)
    requires UnidOk(u)
    ensures |r| == 10
  {
    u.snn + Le32(u.node)
  }

  function ReadUnid(b: seq<bv8>): (u: Unid)
    requires |b| == 10
    ensures UnidOk(u)
  {
    Unid(b[..6], Read32(b[6..]))
  }

  lemma UnidRoundTrip(u: Unid)
    requires UnidOk(u)
    ensures ReadUnid(UnidBytes(u)) == u
  {
    hide Read32, Le32;
    Read32Le32(u.node);
    assert UnidBytes(u)[..6] == u.snn && UnidBytes(u)[6..] == Le32(u.node);
  }

  datatype Segment = Segment(
    format: bv8, sccrc: bv32, scts: seq<bv8>, epi: bv32, params: bv16, tunid: Unid, ounid: Unid,
    ping: bv16, coordMin: bv16, expectation: bv16, timeout: bv8, maxConsumer: bv8, maxFault: bv16,
    cpcrc: bv32, connectionId: bv32, initialTs: bv16, initialRollover: bv16)

  predicate SegmentOk(s: Segment) { |s.scts| == 6 && UnidOk(s.tunid) && UnidOk(s.ounid) }

  predicate Extended(s: Segment) { s.format == 0x02 }

  // Everything in front of the path CRC.
  function Front(s: Segment): (r: seq<bv8>)
    requires SegmentOk(s)
    ensures |r| == if Extended(s) then 50 else 48
  {
    [0x50, if Extended(s) then 0x1E else 0x1B, s.format, 0] + Le32(s.sccrc) + s.scts + Le32(s.epi) + Le16(s.params) +
    UnidBytes(s.tunid) + UnidBytes(s.ounid) + Le16(s.ping) + Le16(s.coordMin) + Le16(s.expectation) +
    [s.timeout, s.maxConsumer] + (if Extended(s) then Le16(s.maxFault) else [])
  }

  function Back(s: Segment): (r: seq<bv8>)
    ensures |r| == if Extended(s) then 8 else 4
  {
    Le32(s.connectionId) + (if Extended(s) then Le16(s.initialTs) + Le16(s.initialRollover) else [])
  }

  function Encode(s: Segment): (r: seq<bv8>)
    requires SegmentOk(s)
    ensures |r| == if Extended(s) then 62 else 56
  {
    Front(s) + Le32(s.cpcrc) + Back(s)
  }

  datatype Parsed = Taken(segment: Segment, size: nat) | NotSafety | BufferTooSmall | UnknownFormat | LengthTooSmall

  function NoUnid(): Unid { Unid([0, 0, 0, 0, 0, 0], 0) }

  function Required(format: bv8): nat { if format == 0x00 then 56 else if format == 0x01 then 14 else 62 }

  function ParseTarget(d: seq<bv8>): Segment
    requires |d| >= 56 && (d[2] == 0x02 ==> |d| >= 62)
  {
    var x := if d[2] == 0x02 then 50 else 48;
    Segment(d[2], Read32(d[4..8]), d[8..14], Read32(d[14..18]), Read16(d[18..20]), ReadUnid(d[20..30]),
            ReadUnid(d[30..40]), Read16(d[40..42]), Read16(d[42..44]), Read16(d[44..46]), d[46], d[47],
            if d[2] == 0x02 then Read16(d[48..50]) else 0, Read32(d[x..x + 4]), Read32(d[x + 4..x + 8]),
            if d[2] == 0x02 then Read16(d[58..60]) else 0, if d[2] == 0x02 then Read16(d[60..62]) else 0)
  }

  function ParseRouter(d: seq<bv8>): Segment
    requires |d| >= 14
  {
    Segment(0x01, 0, [0, 0, 0, 0, 0, 0], Read32(d[8..12]), Read16(d[12..14]), NoUnid(), NoUnid(), 0, 0, 0, 0, 0, 0, 0,
            Read32(d[4..8]), 0, 0)
  }

  function Total(d: seq<bv8>): nat
    requires |d| >= 2
  {
    2 + 2 * (d[1] as int)
  }

  function Parse(d: seq<bv8>): (r: Parsed)
  {
    if |d| < 3 || d[0] != 0x50 then NotSafety
    else if |d| < Total(d) then BufferTooSmall
    else if d[2] != 0x00 && d[2] != 0x01 && d[2] != 0x02 then UnknownFormat
    else if Total(d) < Required(d[2]) then LengthTooSmall
    else Taken(if d[2] == 0x01 then ParseRouter(d) else ParseTarget(d), Total(d))
  }

  lemma Peel(a: seq<bv8>, b: seq<bv8>, d: seq<bv8>)
    requires a + b <= d
    ensures a <= d && d[|a|..|a| + |b|] == b
  {}

  lemma FrontFields(s: Segment, d: seq<bv8>)
    requires SegmentOk(s) && Front(s) <= d
    ensures d[0] == 0x50 && d[1] == (if Extended(s) then 0x1E else 0x1B) && d[2] == s.format
    ensures d[4..8] == Le32(s.sccrc) && d[8..14] == s.scts && d[14..18] == Le32(s.epi) && d[18..20] == Le16(s.params)
    ensures d[20..30] == UnidBytes(s.tunid) && d[30..40] == UnidBytes(s.ounid)
    ensures d[40..42] == Le16(s.ping) && d[42..44] == Le16(s.coordMin) && d[44..46] == Le16(s.expectation)
    ensures d[46..48] == [s.timeout, s.maxConsumer]
    ensures Extended(s) ==> d[48..50] == Le16(s.maxFault)
  {
    hide Le16, Le32, UnidBytes, Extended;
    var p0 := [0x50, if Extended(s) then 0x1E else 0x1B, s.format, 0];
    var p1 := p0 + Le32(s.sccrc);
    var p2 := p1 + s.scts;
    var p3 := p2 + Le32(s.epi);
    var p4 := p3 + Le16(s.params);
    var p5 := p4 + UnidBytes(s.tunid);
    var p6 := p5 + UnidBytes(s.ounid);
    var p7 := p6 + Le16(s.ping);
    var p8 := p7 + Le16(s.coordMin);
    var p9 := p8 + Le16(s.expectation);
    var p10 := p9 + [s.timeout, s.maxConsumer];
    var last := if Extended(s) then Le16(s.maxFault) else [];
    Peel(p10, last, d);
    Peel(p9, [s.timeout, s.maxConsumer], d);
    Peel(p8, Le16(s.expectation), d);
    Peel(p7, Le16(s.coordMin), d);
    Peel(p6, Le16(s.ping), d);
    Peel(p5, UnidBytes(s.ounid), d);
    Peel(p4, UnidBytes(s.tunid), d);
    Peel(p3, Le16(s.params), d);
    Peel(p2, Le32(s.epi), d);
    Peel(p1, s.scts, d);
    Peel(p0, Le32(s.sccrc), d);
  }

  // What the originator writes the target reads back, field for field; a Target
  // format segment has no room for the three fields of the Extended one.
  lemma RoundTrip(s: Segment, rest: seq<bv8>)
    requires SegmentOk(s) && (s.format == 0x00 || s.format == 0x02)
    requires s.format == 0x00 ==> s.maxFault == 0 && s.initialTs == 0 && s.initialRollover == 0
    ensures Parse(Encode(s) + rest) == Taken(s, |Encode(s)|)
  {
    hide Le16, Le32, UnidBytes, Read16, Read32, ReadUnid, Front;
    var d := Encode(s) + rest;
    FrontFields(s, d);
    Peel(Front(s), Le32(s.cpcrc), d);
    BackFields(s, d);
    Read32Le32(s.sccrc);
    Read32Le32(s.epi);
    Read32Le32(s.cpcrc);
    Read32Le32(s.connectionId);
    Read16Le16(s.params);
    Read16Le16(s.ping);
    Read16Le16(s.coordMin);
    Read16Le16(s.expectation);
    Read16Le16(s.maxFault);
    Read16Le16(s.initialTs);
    Read16Le16(s.initialRollover);
    UnidRoundTrip(s.tunid);
    UnidRoundTrip(s.ounid);
  }

  lemma BackFields(s: Segment, d: seq<bv8>)
    requires SegmentOk(s) && Encode(s) <= d
    ensures d[|Front(s)| + 4..|Front(s)| + 8] == Le32(s.connectionId)
    ensures Extended(s) ==> d[58..60] == Le16(s.initialTs) && d[60..62] == Le16(s.initialRollover)
  {
    hide Le16, Le32, Front;
    var head := Front(s) + Le32(s.cpcrc);
    if Extended(s) {
      var a := head + Le32(s.connectionId);
      var b := a + Le16(s.initialTs);
      assert Encode(s) == b + Le16(s.initialRollover);
      Peel(b, Le16(s.initialRollover), d);
      Peel(a, Le16(s.initialTs), d);
      Peel(head, Le32(s.connectionId), d);
    } else {
      assert Encode(s) == head + Le32(s.connectionId);
      Peel(head, Le32(s.connectionId), d);
    }
  }

  // One that ends too early is refused.
  lemma TruncatedRefused(s: Segment, k: nat)
    requires SegmentOk(s) && k < |Encode(s)|
    ensures Parse(Encode(s)[..k]) == if k < 3 then NotSafety else BufferTooSmall
  {
    hide Front;
    FrontFields(s, Encode(s));
  }

  // One that counts other words than it has is read all the same, if the count is not
  // less than its format needs and the input has as many; its size is what it counts.
  lemma CountExact(s: Segment, rest: seq<bv8>, words: bv8)
    requires SegmentOk(s) && (s.format == 0x00 || s.format == 0x02)
    ensures
      var d, size := Encode(s) + rest, 2 + 2 * (words as int);
      Parse(d[1 := words]) ==
      if |d| < size then BufferTooSmall
      else if size < |Encode(s)| then LengthTooSmall
      else Taken(Parse(d).segment, size)
  {
    hide Front, ReadUnid, Read16, Read32;
    var d := Encode(s) + rest;
    FrontFields(s, d);
    if |d| >= 2 + 2 * (words as int) >= |Encode(s)| {
      SameFields(d, words);
    }
  }

  lemma SameFields(d: seq<bv8>, words: bv8)
    requires |d| >= 56 && (d[2] == 0x02 ==> |d| >= 62)
    ensures ParseTarget(d[1 := words]) == ParseTarget(d)
  {
    hide ReadUnid, Read16, Read32;
    var e := d[1 := words];
    assert forall i, j :: 2 <= i <= j <= |d| ==> e[i..j] == d[i..j];
  }

  // And one of an unknown format, or another type, is refused for that.
  lemma HeadRefused(s: Segment, rest: seq<bv8>, v: bv8)
    requires SegmentOk(s)
    ensures v != 0x50 ==> Parse((Encode(s) + rest)[0 := v]) == NotSafety
    ensures v != 0x00 && v != 0x01 && v != 0x02 ==> Parse((Encode(s) + rest)[2 := v]) == UnknownFormat
  {
    hide Front;
    FrontFields(s, Encode(s) + rest);
  }

  // ---- Writing and reading through an advancing offset ----

  method WriteFirst(out: array<bv8>, s: Segment) returns (off: nat)
    requires SegmentOk(s) && out.Length >= 20
    modifies out
    ensures off == 20
    ensures out[..off] == [0x50, if Extended(s) then 0x1E else 0x1B, s.format, 0] + Le32(s.sccrc) + s.scts +
      Le32(s.epi) + Le16(s.params)
    ensures forall i :: off <= i < out.Length ==> out[i] == old(out[i])
  {
    hide Le16, Le32, Extended;
    off := Put(out, 0, [0x50, if Extended(s) then 0x1E else 0x1B, s.format, 0]);
    off := Put(out, off, Le32(s.sccrc));
    off := Put(out, off, s.scts);
    off := Put(out, off, Le32(s.epi));
    off := Put(out, off, Le16(s.params));
  }

  method WriteMiddle(out: array<bv8>, start: nat, s: Segment) returns (off: nat)
    requires SegmentOk(s) && out.Length >= start + 28
    modifies out
    ensures off == start + 28
    ensures out[..off] == old(out[..start]) + UnidBytes(s.tunid) + UnidBytes(s.ounid) + Le16(s.ping) +
      Le16(s.coordMin) + Le16(s.expectation) + [s.timeout, s.maxConsumer]
    ensures forall i :: off <= i < out.Length ==> out[i] == old(out[i])
  {
    hide Le16, UnidBytes;
    off := Put(out, start, UnidBytes(s.tunid));
    off := Put(out, off, UnidBytes(s.ounid));
    off := Put(out, off, Le16(s.ping));
    off := Put(out, off, Le16(s.coordMin));
    off := Put(out, off, Le16(s.expectation));
    off := Put(out, off, [s.timeout, s.maxConsumer]);
  }

  method WriteLast(out: array<bv8>, start: nat, s: Segment) returns (off: nat)
    requires out.Length >= start + if Extended(s) then 14 else 8
    modifies out
    ensures off == start + if Extended(s) then 14 else 8
    ensures out[..off] == old(out[..start]) + (if Extended(s) then Le16(s.maxFault) else []) + Le32(s.cpcrc) + Back(s)
    ensures forall i :: off <= i < out.Length ==> out[i] == old(out[i])
  {
    hide Le16, Le32;
    off := start;
    if Extended(s) {
      off := Put(out, off, Le16(s.maxFault));
    }
    off := Put(out, off, Le32(s.cpcrc));
    off := Put(out, off, Le32(s.connectionId));
    if Extended(s) {
      off := Put(out, off, Le16(s.initialTs));
      off := Put(out, off, Le16(s.initialRollover));
    }
  }

  // The shorter segment of a router: the time correction connection's id, interval
  // and parameters, and nothing else.
  lemma RouterRead(id: bv32, epi: bv32, params: bv16, reserved: bv8, rest: seq<bv8>)
    ensures
      var d := [0x50, 0x06, 0x01, reserved] + Le32(id) + Le32(epi) + Le16(params) + rest;
      Parse(d).Taken? && Parse(d).size == 14 &&
      var s := Parse(d).segment;
      s.format == 0x01 && s.connectionId == id && s.epi == epi && s.params == params && s.sccrc == 0 && s.cpcrc == 0 &&
      s.tunid == NoUnid() && s.ounid == NoUnid()
  {
    hide Le16, Le32, Read16, Read32;
    var d := [0x50, 0x06, 0x01, reserved] + Le32(id) + Le32(epi) + Le16(params) + rest;
    assert d[4..8] == Le32(id) && d[8..12] == Le32(epi) && d[12..14] == Le16(params);
    Read32Le32(id);
    Read32Le32(epi);
    Read16Le16(params);
    assert d[1] == 0x06 && Total(d) == 14 by { SixWords(); }
    assert Parse(d) == Taken(ParseRouter(d), 14);
  }

  lemma SixWords()
    ensures 0x06 as bv8 as int == 6
  {}

  // Refuses an output that cannot hold the whole segment.
  method EncodeSegment(out: array<bv8>, s: Segment) returns (n: int)
    requires SegmentOk(s)
    modifies out
    ensures if out.Length < |Encode(s)| then n == -1 else n == |Encode(s)| && out[..n] == Encode(s)
    ensures forall i :: 0 <= i < out.Length && n <= i ==> out[i] == old(out[i])
  {
    hide Le16, Le32, UnidBytes, Back;
    var words := if Extended(s) then 0x1E else 0x1B;
    if out.Length < 2 + 2 * words { return -1; }
    var off := WriteFirst(out, s);
    off := WriteMiddle(out, off, s);
    off := WriteLast(out, off, s);
    return off;
  }

  method ParseFrom(d: seq<bv8>) returns (r: Parsed)
    ensures r == Parse(d)
  {
    hide Read16, Read32, ReadUnid;
    if |d| < 3 || d[0] != 0x50 { return NotSafety; }
    var total := 2 + 2 * (d[1] as int);
    var format := d[2];
    if |d| < total { return BufferTooSmall; }
    var required;
    if format == 0x00 { required := 56; }
    else if format == 0x01 { required := 14; }
    else if format == 0x02 { required := 62; }
    else { return UnknownFormat; }
    if total < required { return LengthTooSmall; }
    if format == 0x01 {
      return Taken(ParseRouter(d), total);
    }
    var off := 4;
    var sccrc := Read32(d[off..off + 4]);
    off := off + 4;
    var scts := d[off..off + 6];
    off := off + 6;
    var epi, params := Read32(d[off..off + 4]), Read16(d[off + 4..off + 6]);
    off := off + 6;
    var tunid, ounid := ReadUnid(d[off..off + 10]), ReadUnid(d[off + 10..off + 20]);
    off := off + 20;
    var ping, coordMin, expectation := Read16(d[off..off + 2]), Read16(d[off + 2..off + 4]),
      Read16(d[off + 4..off + 6]);
    off := off + 6;
    var timeout, maxConsumer := d[off], d[off + 1];
    off := off + 2;
    var maxFault: bv16 := 0;
    if format == 0x02 {
      maxFault := Read16(d[off..off + 2]);
      off := off + 2;
    }
    var cpcrc, connectionId := Read32(d[off..off + 4]), Read32(d[off + 4..off + 8]);
    off := off + 8;
    var initialTs: bv16, initialRollover: bv16 := 0, 0;
    if format == 0x02 {
      initialTs, initialRollover := Read16(d[off..off + 2]), Read16(d[off + 2..off + 4]);
    }
    r := Taken(Segment(format, sccrc, scts, epi, params, tunid, ounid, ping, coordMin, expectation, timeout,
                       maxConsumer, maxFault, cpcrc, connectionId, initialTs, initialRollover), total);
  }
}
