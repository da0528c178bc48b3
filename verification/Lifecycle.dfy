// A connection from the bytes that open it to the bytes that close it.
module Lifecycle {
  import opened Numbers
  import opened Options
  import opened Words
  import opened NetworkSegment
  import opened ConnectionPath
  import opened ForwardOpen
  import Crc
  import O = SafetyOpen
  import C = Connections
  import opened ConnectionManager

  // ---- Words as numbers ----

  function Number16(v: bv16): nat { Value(Lo(v)) + 256 * Value(Hi(v)) }

  function Number32(v: bv32): nat {
    Value(B0(v)) + 256 * Value(B1(v)) + 0x1_0000 * (Value(B2(v)) + 256 * Value(B3(v)))
  }

  lemma Number16Injective(a: bv16, b: bv16)
    ensures Number16(a) == Number16(b) <==> a == b
  {
    hide Value, Lo, Hi, Words.Word;
    if Number16(a) == Number16(b) {
      SameByte(Lo(a), Lo(b));
      SameByte(Hi(a), Hi(b));
      WordOfBytes(a);
      WordOfBytes(b);
    }
  }

  lemma SameByte(a: bv8, b: bv8)
    requires Value(a) == Value(b)
    ensures a == b
  {
    hide Octet, Value;
    ValueOctet(a);
    ValueOctet(b);
  }

  lemma Number32Injective(a: bv32, b: bv32)
    ensures Number32(a) == Number32(b) <==> a == b
  {
    hide Value, B0, B1, B2, B3, Words.Word32;
    if Number32(a) == Number32(b) {
      SameFour(Value(B0(a)), Value(B1(a)), Value(B2(a)), Value(B3(a)),
               Value(B0(b)), Value(B1(b)), Value(B2(b)), Value(B3(b)));
      SameByte(B0(a), B0(b));
      SameByte(B1(a), B1(b));
      SameByte(B2(a), B2(b));
      SameByte(B3(a), B3(b));
      Word32OfBytes(a);
      Word32OfBytes(b);
    }
  }

  lemma SameFour(a: nat, b: nat, c: nat, d: nat, a': nat, b': nat, c': nat, d': nat)
    requires a < 256 && b < 256 && c < 256 && d < 256 && a' < 256 && b' < 256 && c' < 256 && d' < 256
    requires a + 256 * b + 0x1_0000 * (c + 256 * d) == a' + 256 * b' + 0x1_0000 * (c' + 256 * d')
    ensures a == a' && b == b' && c == c' && d == d'
  {}

  // ---- The identity of a connection, in an open and in a close ----

  function TriadOf(serial: bv16, vendor: bv16, originator: bv32): C.Triad {
    C.Triad(Number16(serial), Number16(vendor), Number32(originator))
  }

  // Two identities are one triad exactly if they are the same.
  lemma TriadExact(s: bv16, v: bv16, o: bv32, s': bv16, v': bv16, o': bv32)
    ensures TriadOf(s, v, o) == TriadOf(s', v', o') <==> s == s' && v == v' && o == o'
  {
    hide Number16, Number32;
    Number16Injective(s, s');
    Number16Injective(v, v');
    Number32Injective(o, o');
  }

  function CloseRequest(priority: bv8, ticks: bv8, serial: bv16, vendor: bv16, originator: bv32, rest: seq<bv8>)
    : (d: seq<bv8>)
    ensures |d| == 10 + |rest|
  {
    [priority, ticks] + Le16(serial) + Le16(vendor) + Le32(originator) + rest
  }

  // A close names the connection whose serial number, vendor and originator stand
  // in it, low bytes first.
  lemma CloseNames(priority: bv8, ticks: bv8, serial: bv16, vendor: bv16, originator: bv32, rest: seq<bv8>)
    ensures CloseTriad(CloseRequest(priority, ticks, serial, vendor, originator, rest)) ==
      TriadOf(serial, vendor, originator)
  {
    hide Value, Lo, Hi, B0, B1, B2, B3;
    var d := CloseRequest(priority, ticks, serial, vendor, originator, rest);
    assert d[2] == Lo(serial) && d[3] == Hi(serial) && d[4] == Lo(vendor) && d[5] == Hi(vendor);
    assert d[6] == B0(originator) && d[7] == B1(originator) && d[8] == B2(originator) && d[9] == B3(originator);
  }

  // ---- What the connection manager makes of a parsed open ----

  function NumberOf(x: Option<bv16>): Option<nat> { if x.Some? then Some(Number16(x.value)) else None }

  function Null(p: Params): bool { p.kind == 0 }

  // The checks in front of the configuration check are those with no configuration
  // stored.
  function SafetyPartOf(segment: seq<bv8>, r: Request, tunid: Unid): Option<C.SafetyPart>
    requires UnidOk(tunid) && |r.raw| >= 36
  {
    if segment == [] then None
    else
      var verdict := O.Validate(segment, r, tunid, 0);
      var parsed := Parse(segment);
      Some(C.SafetyPart(if verdict.Refused? then Some(verdict.status) else None,
                        if parsed.Taken? then Number32(parsed.segment.sccrc) else 0))
  }

  function Requested(r: Request, tunid: Unid): C.OpenRequest
    requires UnidOk(tunid) && |r.raw| >= 36
  {
    var seen := SeenOn(r.path);
    var named := Named(seen, Null(r.ot), Null(r.to));
    C.OpenRequest(TriadOf(r.serial, r.vendor, r.originator), NumberOf(named.consumed), NumberOf(named.produced),
                  SafetyPartOf(seen.safety, r, tunid))
  }

  // The target's verdict on the safety part is where the manager's answer begins:
  // what it refuses is refused, and nothing else is for the sake of safety.
  lemma VerdictFirst(data: seq<bv8>, tunid: Unid, scid: bv32, s: C.State, assemblies: set<nat>)
    requires UnidOk(tunid) && ParseRequest(data, false).Some? && s.scid == Number32(scid)
    ensures
      var r := Requested(ParseRequest(data, false).value, tunid);
      var verdict := O.Open(data, tunid, scid);
      if verdict.Refused? then C.OpenAnswer(s, r, assemblies) == C.Refused(verdict.status)
      else
        (verdict.Plain? <==> r.safety.None?) &&
        C.OpenAnswer(s, r, assemblies) == C.OpenAnswer(s, r.(safety := None), assemblies)
  {
    hide ParseRequest, SeenOn, Named, FindSafety, O.CpMessage, Crc.S4, Number32, Parse, UnidBytes, TriadOf, Number16;
    var r := ParseRequest(data, false).value;
    var segment := SeenOn(r.path).safety;
    Number32Injective(scid, 0);
    ZeroNumber();
    if segment != [] {
      var parsed := Parse(segment);
      if parsed.Taken? {
        Number32Injective(parsed.segment.sccrc, 0);
        Number32Injective(parsed.segment.sccrc, scid);
      }
    }
  }

  lemma ZeroNumber()
    ensures Number32(0) == 0
  {}

  // ---- Opened, then closed ----

  // An open that is accepted adds one connection, of the identity in its bytes.
  lemma OpenAdds(s: C.State, r: Request, tunid: Unid, assemblies: set<nat>)
    requires UnidOk(tunid) && |r.raw| >= 36 && C.Sound(s) && C.RoomFor(s, 1)
    requires C.OpenAnswer(s, Requested(r, tunid), assemblies).Opened?
    ensures
      var t, id := C.Open(s, Requested(r, tunid), assemblies), s.last + 1;
      C.Sound(t) && id !in s.live && id in t.live && t.live - {id} == s.live && t.removed == s.removed &&
      t.live[id].triad == TriadOf(r.serial, r.vendor, r.originator) && t.live[id].id == id
  {
    hide Requested, TriadOf, C.Sound, C.SccrcOf, C.Given;
    var req := Requested(r, tunid);
    RequestedTriad(r, tunid);
    C.AdmitSound(s, req);
    assert s.last + 1 !in s.live by { FreshId(s); }
  }

  lemma FreshId(s: C.State)
    requires C.Sound(s)
    ensures s.last + 1 !in s.live
  {}

  // A close with the identity of a live connection removes exactly that one, and
  // a close with any other leaves it.
  lemma CloseRemoves(t: C.State, id: nat, s: bv16, v: bv16, o: bv32, a: bv8, b: bv8, rest: seq<bv8>)
    requires C.Sound(t) && id in t.live && t.live[id].triad == TriadOf(s, v, o)
    ensures
      var u := C.Close(t, CloseTriad(CloseRequest(a, b, s, v, o, rest)));
      u.live == t.live - {id} && u.removed == t.removed + [id]
  {
    hide TriadOf, CloseTriad, CloseRequest, C.Sound;
    CloseNames(a, b, s, v, o, rest);
    LiveIsTarget(t, id);
  }

  lemma LiveIsTarget(t: C.State, id: nat)
    requires C.Sound(t) && id in t.live
    ensures
      var u := C.Close(t, t.live[id].triad);
      u.live == t.live - {id} && u.removed == t.removed + [id]
  {
    assert C.InUse(t.live, t.live[id].triad);
    C.KeyIsId(t, t.live[id].triad);
  }

  lemma OtherStays(t: C.State, id: nat, other: C.Triad)
    requires C.Sound(t) && id in t.live && t.live[id].triad != other
    ensures id in C.Close(t, other).live
  {
    if C.InUse(t.live, other) { C.KeyIsId(t, other); }
  }

  lemma OtherCloseLeaves(
    t: C.State, id: nat, s: bv16, v: bv16, o: bv32, s': bv16, v': bv16, o': bv32, a: bv8, b: bv8, rest: seq<bv8>)
    requires C.Sound(t) && id in t.live && t.live[id].triad == TriadOf(s, v, o)
    requires s != s' || v != v' || o != o'
    ensures id in C.Close(t, CloseTriad(CloseRequest(a, b, s', v', o', rest))).live
  {
    hide TriadOf, CloseTriad, CloseRequest, C.Sound, C.Close;
    CloseNames(a, b, s', v', o', rest);
    TriadExact(s, v, o, s', v', o');
    OtherStays(t, id, TriadOf(s', v', o'));
  }

  lemma RequestedTriad(r: Request, tunid: Unid)
    requires UnidOk(tunid) && |r.raw| >= 36
    ensures Requested(r, tunid).triad == TriadOf(r.serial, r.vendor, r.originator)
  {
    hide TriadOf, SafetyPartOf, SeenOn, Named;
  }

  // From bytes to bytes: what a head of either form opens, a close with its serial
  // number, vendor and originator removes again, and nothing else.
  lemma OpenThenClose(
    s: C.State, r: Request, ot: Raw, to: Raw, words: bv8, path: seq<bv8>, tunid: Unid, assemblies: set<nat>,
    a: bv8, b: bv8, rest: seq<bv8>)
    requires ot.Of32? == to.Of32? && |path| == 2 * Value(words) && UnidOk(tunid) && C.Sound(s) && C.RoomFor(s, 1)
    ensures ParseRequest(HeadBytes(r, ot, to, words) + path, ot.Of32?).Some?
    ensures
      var req := Requested(ParseRequest(HeadBytes(r, ot, to, words) + path, ot.Of32?).value, tunid);
      var t := C.Open(s, req, assemblies);
      var u := C.Close(t, CloseTriad(CloseRequest(a, b, r.serial, r.vendor, r.originator, rest)));
      C.OpenAnswer(s, req, assemblies).Opened? ==>
        t.live != s.live && u.live == s.live && u.removed == s.removed + [s.last + 1]
  {
    hide HeadBytes, Requested, ParseRequest, CloseTriad, CloseRequest, Value, C.Sound, ParamsOf, TriadOf;
    hide C.Open, C.Close;
    HeadRead(r, ot, to, words, path);
    var parsed := ParseRequest(HeadBytes(r, ot, to, words) + path, ot.Of32?).value;
    if C.OpenAnswer(s, Requested(parsed, tunid), assemblies).Opened? {
      OpenAdds(s, parsed, tunid, assemblies);
      var t := C.Open(s, Requested(parsed, tunid), assemblies);
      CloseRemoves(t, s.last + 1, r.serial, r.vendor, r.originator, a, b, rest);
    }
  }

  // ---- A built safety open ----

  lemma WideNumber(b: bv8)
    ensures Number16(Wide(b)) == Value(b)
  {
    assert Lo(Wide(b)) == b && Hi(Wide(b)) == 0;
    assert Value(0) == 0;
  }

  // What the manager is asked for by a built request: the originator's identity,
  // the assemblies of the configuration, each in its direction, and its CRC.
  lemma BuiltRequested(c: O.Config, o: O.Origin, tunid: Unid)
    requires O.ConfigOk(c) && UnidOk(tunid)
    ensures ParseRequest(O.Build(c, o, [], []), false).Some?
    ensures
      var q := Requested(ParseRequest(O.Build(c, o, [], []), false).value, tunid);
      q.triad == TriadOf(o.serial, o.vendor, o.device) && q.safety.Some? &&
      q.consumed == Some(Value(B0(c.consumed))) && q.produced == Some(Value(B0(c.produced))) &&
      q.safety.value.sccrc == Number32(c.sccrc)
  {
    hide O.Build, ParseRequest, SeenOn, Named, TriadOf, O.Validate, Number16, Number32, B0, Value, Parse, O.HeadOf;
    var sd := O.Build(c, o, [], []);
    O.BuiltRead(c, o);
    O.BuiltNames(c, o);
    HeadFields(c, o);
    WideNumber(B0(c.consumed));
    WideNumber(B0(c.produced));
    O.BuiltSegmentRead(c, o);
  }

  lemma HeadFields(c: O.Config, o: O.Origin)
    ensures var r := O.HeadOf(c, o);
      r.serial == o.serial && r.vendor == o.vendor && r.originator == o.device && !Null(r.ot) && !Null(r.to)
  {
    hide SafetyParams, Parse16, O.SizeOr;
    SafetyParamsRead(O.SizeOr(c.otSize, c.consumedSize, c.format));
    SafetyParamsRead(O.SizeOr(c.toSize, c.producedSize, c.format));
  }

  // The manager's whole answer to a built request, and the connection it opens.
  lemma BuiltAnswer(
    c: O.Config, o: O.Origin, tunid: Unid, scid: bv32, s: C.State, assemblies: set<nat>)
    requires O.ConfigOk(c) && UnidOk(tunid) && s.scid == Number32(scid) && s.last + 1 < C.ID_LIMIT
    ensures ParseRequest(O.Build(c, o, [], []), false).Some?
    ensures
      var q := Requested(ParseRequest(O.Build(c, o, [], []), false).value, tunid);
      var (consumed, produced) := (Value(B0(c.consumed)), Value(B0(c.produced)));
      C.OpenAnswer(s, q, assemblies) ==
      if tunid != c.tunid then C.Refused(0x080E)
      else if scid != 0 && c.sccrc != 0 && c.sccrc != scid then C.Refused(0x0111)
      else if consumed !in assemblies || produced !in assemblies || consumed == produced then C.Refused(0x0116)
      else if C.InUse(s.live, TriadOf(o.serial, o.vendor, o.device)) then C.Refused(0x0100)
      else C.Opened(s.last + 1)
  {
    hide O.Build, ParseRequest, Requested, TriadOf, Number32, B0, Value, O.Open;
    BuiltRequested(c, o, tunid);
    O.OpenAgreement(c, o, tunid, scid);
    VerdictFirst(O.Build(c, o, [], []), tunid, scid, s, assemblies);
  }

  lemma BuiltOpens(
    c: O.Config, o: O.Origin, tunid: Unid, s: C.State, assemblies: set<nat>)
    requires O.ConfigOk(c) && UnidOk(tunid) && s.last + 1 < C.ID_LIMIT
    ensures ParseRequest(O.Build(c, o, [], []), false).Some?
    ensures
      var q := Requested(ParseRequest(O.Build(c, o, [], []), false).value, tunid);
      var t, id := C.Open(s, q, assemblies), s.last + 1;
      C.OpenAnswer(s, q, assemblies).Opened? ==>
        t.live == s.live[id := C.Connection(id, TriadOf(o.serial, o.vendor, o.device), Value(B0(c.consumed)),
                                            Value(B0(c.produced)), true, Number32(c.sccrc))] &&
        t.scid == Number32(c.sccrc)
  {
    hide O.Build, ParseRequest, Requested, TriadOf, Number32, B0, Value;
    BuiltRequested(c, o, tunid);
  }
}
