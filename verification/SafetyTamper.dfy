// One byte of a built safety open replaced on its way to the target.
module SafetyTamper {
  import opened Numbers
  import opened Options
  import opened Words
  import opened Crc
  import opened CrcLaws
  import opened NetworkSegment
  import opened ConnectionPath
  import opened ForwardOpen
  import opened SafetyOpen
  import SafetyFrame

  // ---- Bytes that the path CRC covers, and its own ----

  // The connection serial number and vendor, the transport parameters, the bytes
  // in front of the segment, and the segment from its fourth byte to the end of
  // the CRC.
  predicate Guarded(sd: seq<bv8>, k: nat)
    requires Framed(sd)
  {
    10 <= k < 14 || 18 <= k < 35 || 36 <= k < 44 || 47 <= k < CrcAt(sd) + 4
  }

  // Read by nobody in the handshake: the priority and tick bytes and connection
  // ids, the originator's serial number, and what stands behind the CRC.
  predicate Free(sd: seq<bv8>, k: nat)
    requires Framed(sd)
  {
    k < 10 || 14 <= k < 18 || CrcAt(sd) + 4 <= k
  }

  lemma KeepsFrame(sd: seq<bv8>, k: nat, v: bv8)
    requires Framed(sd) && k < |sd| && (Guarded(sd, k) || Free(sd, k))
    ensures Framed(sd[k := v]) && CrcAt(sd[k := v]) == CrcAt(sd)
  {
    hide Value;
    var x := sd[k := v];
    CrcPlace(sd);
    assert x[44..][0] == sd[44..][0] && x[44..][1] == sd[44..][1] && x[44..][2] == sd[44..][2];
  }

  lemma CrcPlace(sd: seq<bv8>)
    requires Framed(sd)
    ensures 92 <= CrcAt(sd) && CrcAt(sd) + 4 <= |sd|
  {
    hide Value;
    assert sd[44..][2] == sd[46];
  }

  lemma CoverReplaced(sd: seq<bv8>, k: nat, v: bv8, at: nat)
    requires 18 <= at <= |sd| && (10 <= k < 14 || 18 <= k < at)
    ensures
      var x, m, i := sd[k := v], sd[10..14] + sd[18..at], if k < 14 then k - 10 else k - 14;
      x[10..14] + x[18..at] == m[i := v] && m[i] == sd[k]
  {
    var x, a, b := sd[k := v], sd[10..14], sd[18..at];
    if k < 14 {
      assert x[10..14] == a[k - 10 := v] && x[18..at] == b;
      assert a[k - 10 := v] + b == (a + b)[k - 10 := v];
    } else {
      assert x[10..14] == a && x[18..at] == b[k - 18 := v];
      assert a + b[k - 18 := v] == (a + b)[4 + (k - 18) := v];
    }
  }

  // Either the covered bytes change in one place, or the CRC field does.
  lemma GuardedSeen(sd: seq<bv8>, k: nat, v: bv8)
    requires Framed(sd) && CrcHolds(sd) && Guarded(sd, k) && k < |sd| && v != sd[k]
    ensures Framed(sd[k := v]) && !CrcHolds(sd[k := v])
  {
    hide Framed, S4, Read32;
    var x, at := sd[k := v], CrcAt(sd);
    CrcPlace(sd);
    KeepsFrame(sd, k, v);
    if k < at {
      var m := CoveredBytes(sd);
      var i := if k < 14 then k - 10 else k - 14;
      CoverReplaced(sd, k, v, at);
      S4ByteSeen(m, i, v, PRESET);
      assert x[at..at + 4] == sd[at..at + 4];
    } else {
      assert CoveredBytes(x) == CoveredBytes(sd);
      assert x[at..at + 4][k - at] == v && sd[at..at + 4][k - at] == sd[k];
      Le32Read32(x[at..at + 4]);
      Le32Read32(sd[at..at + 4]);
    }
  }

  lemma FreeKeeps(sd: seq<bv8>, k: nat, v: bv8, tunid: Unid, scid: bv32)
    requires Framed(sd) && Free(sd, k) && k < |sd| && UnidOk(tunid)
    ensures Framed(sd[k := v]) && Judge(sd[k := v], tunid, scid) == Judge(sd, tunid, scid)
  {
    hide Framed, S4, Read32, ReadUnid, UnidBytes;
    var x, at := sd[k := v], CrcAt(sd);
    CrcPlace(sd);
    KeepsFrame(sd, k, v);
    assert CoveredBytes(x) == CoveredBytes(sd) && x[at..at + 4] == sd[at..at + 4];
    assert x[48..52] == sd[48..52] && x[64..74] == sd[64..74];
  }

  // ---- Where the search still ends ----

  // Only the four bytes that say what kind of segment follows can lead the search
  // elsewhere.
  lemma StillFound(sd: seq<bv8>, k: nat, v: bv8)
    requires Shaped(sd) && k < |sd| && (Guarded(sd, k) || Free(sd, k))
    requires k != 36 && k != 38 && k != 40 && k != 42
    ensures Shaped(sd[k := v]) && FindSafety(sd[k := v][36..]) == Some(8)
  {
    hide Framed, FindSafety, SegmentStart;
    var x := sd[k := v];
    KeepsFrame(sd, k, v);
    CrcPlace(sd);
    SameShortcut(sd, x);
    FrameParts(x);
    ShortcutFound(x[36..]);
  }

  lemma SameShortcut(sd: seq<bv8>, x: seq<bv8>)
    requires |sd| == |x| >= 44 && Shortcut(sd[36..44])
    requires x[36] == sd[36] && x[38] == sd[38] && x[40] == sd[40] && x[42] == sd[42]
    ensures Shortcut(x[36..44])
  {
    var p, q := sd[36..44], x[36..44];
    assert p[0] == sd[36] && p[2] == sd[38] && p[4] == sd[40] && p[6] == sd[42];
    assert q[0] == x[36] && q[2] == x[38] && q[4] == x[40] && q[6] == x[42];
  }

  lemma FrameParts(sd: seq<bv8>)
    requires Framed(sd)
    ensures |sd[36..]| > 8 && sd[36..][..8] == sd[36..44] && sd[36..][8..] == sd[44..] && SegmentStart(sd[44..])
  {
    hide SegmentStart;
  }

  // ---- The size of the path, and of the segment ----

  // A path that does not hold the whole segment opens an ordinary connection.
  lemma CutIsPlain(path: seq<bv8>)
    requires FindSafety(path).Some? ==> SafetyEnd(path, FindSafety(path).value).None?
    ensures SeenOn(path).safety == []
  {
    hide SeenOn, FindSafety, SafetyEnd;
    CaptureIsFound(path);
  }

  lemma {:induction false} ShortFinds(path: seq<bv8>, off: nat)
    requires |path| <= 8 && |path| % 2 == 0 && off % 2 == 0
    requires forall i :: 0 <= i < |path| && i % 2 == 0 ==> path[i] == 0x20 || path[i] == 0x24 || path[i] == 0x2C
    ensures Find(path, off).None?
    decreases |path| - off
  {
    hide SegmentAt;
    if off < |path| {
      LogicalStep(path, off);
      ShortFinds(path, off + 2);
    }
  }

  lemma PathTaken(sd: seq<bv8>, n: nat)
    requires Shaped(sd) && 36 + n < |sd|
    ensures var path := sd[36..36 + n];
      if n > 8 then |path| == n && Shortcut(path[..8]) && path[8] == 0x50 && path[9..] == sd[45..36 + n]
      else forall i :: 0 <= i < |path| && i % 2 == 0 ==> path[i] == 0x20 || path[i] == 0x24 || path[i] == 0x2C
  {
    hide Value;
    var p, path := sd[36..44], sd[36..36 + n];
    assert p[0] == sd[36] && p[2] == sd[38] && p[4] == sd[40] && p[6] == sd[42];
    assert sd[44..][0] == sd[44];
    if n > 8 { assert path[..8] == p; }
  }

  lemma ShortPathPlain(sd: seq<bv8>, n: nat)
    requires Shaped(sd) && 36 + n < |sd| && n % 2 == 0
    ensures SeenOn(sd[36..36 + n]).safety == []
  {
    hide SeenOn, SegmentAt, Shortcut, Walk;
    var path := sd[36..36 + n];
    PathTaken(sd, n);
    if n > 8 {
      NoWrapper(path);
      assert path[0..] == path;
      ShortcutWalk(path);
      SafetyStep(path, 8);
      SegmentEnds(sd, path);
    } else {
      assert Base(path) == 0 by { if |path| >= 6 { assert path[0] != WRAPPER[0]; } }
      assert path[0..] == path;
      ShortFinds(path, 0);
    }
    CutIsPlain(path);
  }

  lemma SegmentEnds(sd: seq<bv8>, path: seq<bv8>)
    requires Shaped(sd) && 10 <= |path| < |sd| - 36 && path[9..] == sd[45..36 + |path|]
    ensures SafetyEnd(path, 8).None?
  {
    hide Value;
    assert path[9] == path[9..][0] == sd[45] && sd[44..][1] == sd[45];
  }

  // What a larger or a smaller path size makes of the request.
  lemma SizeChanged(sd: seq<bv8>, v: bv8, tunid: Unid, scid: bv32)
    requires Shaped(sd) && v != sd[35] && UnidOk(tunid)
    ensures Open(sd[35 := v], tunid, scid) == if Value(v) > Value(sd[35]) then Refused(0x0118) else Plain
  {
    hide SeenOn, Value, Validate, ParsedHead, Shortcut, SegmentStart;
    var x, n := sd[35 := v], 2 * Value(v);
    BytesDiffer(v, sd[35]);
    if n < 2 * Value(sd[35]) {
      assert x[36..36 + n] == sd[36..36 + n];
      HeadKeeps(x, x[36..36 + n], x[..36 + n]);
      ShortPathPlain(sd, n);
    }
  }

  lemma BytesDiffer(a: bv8, b: bv8)
    requires a != b
    ensures Value(a) != Value(b)
  {}

  // With another length or format byte the request is still taken whole, and the
  // segment still found.
  lemma SegmentByte(sd: seq<bv8>, k: nat, v: bv8)
    requires Shaped(sd) && (k == 45 || k == 46) && k < |sd|
    ensures
      var x := sd[k := v];
      var path := x[36..];
      |path| == 10 + 2 * Value(sd[45]) && Shortcut(path[..8]) && path[8..] == x[44..] && path[8] == 0x50 &&
      path[9] == x[45]
  {
    hide Value, Shortcut;
    var x := sd[k := v];
    var path := x[36..];
    assert path[..8] == sd[36..44] && sd[44..][0] == path[8] && sd[44..][1] == sd[45];
  }

  lemma StillTaken(sd: seq<bv8>, k: nat, v: bv8)
    requires Framed(sd) && (k == 45 || k == 46) && k < |sd|
    ensures ParseRequest(sd[k := v], false).Some?
    ensures var r := ParseRequest(sd[k := v], false).value; r.path == sd[k := v][36..] && r.raw == sd[k := v]
  {
    hide ParsedHead, Value, SegmentStart;
    var x := sd[k := v];
    assert x[..|x|] == x && x[36..|x|] == x[36..];
    HeadKeeps(x, x[36..], x);
  }

  lemma LongerSegment(sd: seq<bv8>, v: bv8, tunid: Unid, scid: bv32)
    requires Shaped(sd) && 45 < |sd| && Value(v) > Value(sd[45]) && UnidOk(tunid)
    ensures Open(sd[45 := v], tunid, scid) == Plain
  {
    hide SeenOn, Value, Validate, ParseRequest, Shortcut, FindSafety, SegmentStart;
    var path := sd[45 := v][36..];
    StillTaken(sd, 45, v);
    SegmentByte(sd, 45, v);
    HeadFound(path);
    assert SafetyEnd(path, 8).None?;
    CutIsPlain(path);
  }

  // ---- The format ----

  lemma FormatUnread(seg: seq<bv8>)
    requires |seg| >= 3 && |seg| == 2 + 2 * Value(seg[1]) && seg[2] != 0x01 && seg[2] != 0x00
    requires seg[2] == 0x02 ==> |seg| < 62
    ensures !Parse(seg).Taken?
  {
    hide Value, ParseRouter, ParseTarget;
    TotalIs(seg);
  }

  lemma FormatRefused(sd: seq<bv8>, v: bv8, tunid: Unid, scid: bv32)
    requires Shaped(sd) && UnidOk(tunid) && v != 0x01 && v != 0x00 && 46 < |sd| && (v == 0x02 ==> |sd| == 100)
    ensures Open(sd[46 := v], tunid, scid) == Refused(0x080E)
  {
    hide SeenOn, Value, ParseRequest, Shortcut, FindSafety, Parse, CpMessage, S4, UnidBytes, SegmentStart;
    var path := sd[46 := v][36..];
    StillTaken(sd, 46, v);
    SegmentByte(sd, 46, v);
    HeadFound(path);
    FoundIsSeen(path);
    assert path[8..][0] == path[8] && path[8..][1] == path[9] && path[8..][2] == v;
    FormatUnread(path[8..]);
  }

  lemma HeadFound(path: seq<bv8>)
    requires |path| > 9 && Shortcut(path[..8]) && path[8] == 0x50
    ensures FindSafety(path) == Some(8)
  {
    hide SegmentAt, Shortcut, Walk;
    NoWrapper(path);
    assert path[0..] == path;
    ShortcutWalk(path);
    SafetyStep(path, 8);
  }

  // From the extended format to the base one: fewer bytes are covered, and others
  // taken for the CRC.
  lemma FormatShortened(sd: seq<bv8>, tunid: Unid, scid: bv32)
    requires Shaped(sd) && sd[46] == 0x02 && UnidOk(tunid)
    ensures Framed(sd[46 := 0x00]) && Open(sd[46 := 0x00], tunid, scid) == Judge(sd[46 := 0x00], tunid, scid)
  {
    hide Judge, Open, Value, FindSafety, Shortcut;
    var x := sd[46 := 0x00];
    CrcPlace(sd);
    assert x[44..][0] == sd[44..][0] && x[44..][1] == sd[44..][1] && x[44..][2] == 0x00 && sd[44..][2] == 0x02;
    assert x[36..][..8] == sd[36..44] && x[36..][8] == x[44..][0];
    HeadFound(x[36..]);
    FoundIsJudge(x, tunid, scid);
  }

  // ---- Every byte ----

  // Where the law below says what becomes of a request: everywhere but where the
  // walk goes on from another place and reads the bytes of the segment as it
  // pleases.
  predicate Decided(sd: seq<bv8>, k: nat, v: bv8)
    requires Framed(sd) && k < |sd|
  {
    && (k in {36, 38, 40, 42} ==> FindSafety(sd[k := v][36..]) == Some(8))
    && k != 44
    && (k == 45 ==> Value(v) > Value(sd[45]))
    && (k == 46 ==> v != 0x01)
  }

  // The network identity is checked before the CRC.
  function Unsealed(x: seq<bv8>, tunid: Unid): Verdict
    requires |x| >= 74 && UnidOk(tunid)
  {
    if UnidBytes(ReadUnid(x[64..74])) != UnidBytes(tunid) then Refused(0x080E) else Refused(0x080D)
  }

  function Tampered(sd: seq<bv8>, k: nat, v: bv8, tunid: Unid, scid: bv32): Verdict
    requires Shaped(sd) && k < |sd| && UnidOk(tunid) && (k == 46 && v == 0x00 ==> Framed(sd[46 := v]))
  {
    CrcPlace(sd);
    if Free(sd, k) then Open(sd, tunid, scid)
    else if k == 35 then if Value(v) > Value(sd[35]) then Refused(0x0118) else Plain
    else if k == 45 then Plain
    else if k == 46 then if v == 0x00 then Judge(sd[46 := v], tunid, scid) else Refused(0x080E)
    else Unsealed(sd[k := v], tunid)
  }

  lemma GuardedRefused(sd: seq<bv8>, k: nat, v: bv8, tunid: Unid, scid: bv32)
    requires Shaped(sd) && CrcHolds(sd) && Guarded(sd, k) && k < |sd| && v != sd[k] && UnidOk(tunid)
    requires Decided(sd, k, v)
    ensures |sd| >= 96 && Open(sd[k := v], tunid, scid) == Unsealed(sd[k := v], tunid)
  {
    hide Framed, CrcHolds, Read32, UnidBytes, ReadUnid, Open, FindSafety;
    CrcPlace(sd);
    GuardedSeen(sd, k, v);
    if k !in {36, 38, 40, 42} { StillFound(sd, k, v); }
    FoundIsJudge(sd[k := v], tunid, scid);
  }

  // The target's answer to a built request with one byte replaced.
  lemma TamperExact(c: Config, o: Origin, k: nat, v: bv8, tunid: Unid, scid: bv32)
    requires ConfigOk(c) && UnidOk(tunid) && k < |Build(c, o, [], [])| && v != Build(c, o, [], [])[k]
    requires Shaped(Build(c, o, [], [])) && Decided(Build(c, o, [], []), k, v)
    ensures k == 46 && v == 0x00 ==> Framed(Build(c, o, [], [])[46 := v])
    ensures Open(Build(c, o, [], [])[k := v], tunid, scid) == Tampered(Build(c, o, [], []), k, v, tunid, scid)
  {
    hide Build, Framed, CrcHolds, Judge, Open, Unsealed, FindSafety, Value;
    var sd := Build(c, o, [], []);
    BuiltCrcHolds(c, o);
    BuiltShaped(c, o);
    BuiltSize(c, o);
    CrcPlace(sd);
    if Free(sd, k) {
      FreeKeeps(sd, k, v, tunid, scid);
      StillFound(sd, k, v);
      FoundIsJudge(sd[k := v], tunid, scid);
      OpenIsJudge(sd, tunid, scid);
    } else if k == 35 {
      SizeChanged(sd, v, tunid, scid);
    } else if k == 45 {
      LongerSegment(sd, v, tunid, scid);
    } else if k == 46 {
      if v == 0x00 { FormatShortened(sd, tunid, scid); } else { FormatRefused(sd, v, tunid, scid); }
    } else {
      GuardedRefused(sd, k, v, tunid, scid);
    }
  }

  lemma BuiltSize(c: Config, o: Origin)
    requires ConfigOk(c)
    ensures |Build(c, o, [], [])| == if c.format == SafetyFrame.Extended then 106 else 100
  {
    hide Head, CrcFor, Build, Front, Back, DefaultPath;
    BuiltPlaces(c, o);
  }

  // Outside the bytes that say where segments begin: a request is accepted in
  // spite of a replaced byte exactly if nothing reads that byte.
  lemma TamperAccepted(c: Config, o: Origin, k: nat, v: bv8, tunid: Unid, scid: bv32)
    requires ConfigOk(c) && UnidOk(tunid) && k < |Build(c, o, [], [])| && v != Build(c, o, [], [])[k]
    requires k !in {36, 38, 40, 42, 44, 45, 46}
    ensures Shaped(Build(c, o, [], []))
    ensures Open(Build(c, o, [], [])[k := v], tunid, scid) == Accepted <==>
      Free(Build(c, o, [], []), k) && Open(Build(c, o, [], []), tunid, scid) == Accepted
  {
    hide Build, Framed, Open, FindSafety, UnidBytes, ReadUnid;
    BuiltShaped(c, o);
    TamperExact(c, o, k, v, tunid, scid);
  }

  // No guarded byte can be replaced unseen, whatever the target's own identity.
  lemma TamperRefused(c: Config, o: Origin, k: nat, v: bv8, tunid: Unid, scid: bv32)
    requires ConfigOk(c) && UnidOk(tunid) && k < |Build(c, o, [], [])| && v != Build(c, o, [], [])[k]
    requires 10 <= k < 14 || 18 <= k < 35 || k in {37, 39, 41, 43} ||
      47 <= k < (if c.format == SafetyFrame.Extended then 98 else 96)
    ensures Open(Build(c, o, [], [])[k := v], tunid, scid).Refused?
  {
    hide Build, Framed, Open, FindSafety, UnidBytes, ReadUnid;
    BuiltShaped(c, o);
    BuiltSize(c, o);
    TamperExact(c, o, k, v, tunid, scid);
  }
}
