// How a structure template lays out its members: in order, each aligned to its
// type, single BOOLs packed eight to a hidden host byte.
module TagLayout {
  import opened Options

  const BOOL: nat := 0x00C1
  const SINT: nat := 0x00C2

  datatype Decl = Decl(name: string, dataType: nat, arraySize: nat)

  datatype Member = Member(name: string, dataType: nat, offset: nat, arraySize: nat, elementSize: nat)

  datatype Template = Template(id: nat, name: string, handle: nat, size: nat, members: seq<Member>)

  type Templates = map<nat, Template>

  // ---- Type codes ----

  predicate Structured(dataType: nat) { dataType / 0x8000 % 2 == 1 }

  function NestedId(dataType: nat): nat { dataType % 0x1000 }

  function ElementSize(dataType: nat): int {
    match dataType % 0x100
    case 0xC1 => 1 case 0xC2 => 1 case 0xC3 => 2 case 0xC4 => 4 case 0xC5 => 8
    case 0xC6 => 1 case 0xC7 => 2 case 0xC8 => 4 case 0xC9 => 8 case 0xCA => 4 case 0xCB => 8
    case 0xD1 => 1 case 0xD2 => 2 case 0xD3 => 4 case 0xD4 => 8
    case 0xDA => 81
    case _ => -1
  }

  // The largest atomic type, a SHORT_STRING.
  const LARGEST: nat := 81

  function TypeAlignment(dataType: nat, elementSize: nat): nat {
    match dataType % 0x100
    case 0xC1 => 1 case 0xC2 => 1 case 0xC3 => 2 case 0xC4 => 4 case 0xC5 => 8
    case 0xC6 => 1 case 0xC7 => 2 case 0xC8 => 4 case 0xC9 => 8 case 0xCA => 4 case 0xCB => 8
    case 0xD1 => 1 case 0xD2 => 2 case 0xD3 => 4 case 0xD4 => 8
    case _ => if elementSize < 4 then elementSize else 4
  }

  function AlignUp(offset: nat, alignment: nat): nat
    requires alignment > 0
  {
    (offset + alignment - 1) / alignment * alignment
  }

  predicate PowerToEight(x: nat) { x == 1 || x == 2 || x == 4 || x == 8 }

  lemma AlignUpTwo(x: nat)
    ensures x <= (x + 1) / 2 * 2 < x + 2 && (x + 1) / 2 * 2 % 2 == 0
  {}

  lemma AlignUpFour(x: nat)
    ensures x <= (x + 3) / 4 * 4 < x + 4 && (x + 3) / 4 * 4 % 4 == 0
  {}

  lemma AlignUpEight(x: nat)
    ensures x <= (x + 7) / 8 * 8 < x + 8 && (x + 7) / 8 * 8 % 8 == 0
  {}

  lemma AlignUpIs(offset: nat, alignment: nat)
    requires PowerToEight(alignment)
    ensures offset <= AlignUp(offset, alignment) < offset + alignment
    ensures AlignUp(offset, alignment) % alignment == 0
  {
    AlignUpTwo(offset);
    AlignUpFour(offset);
    AlignUpEight(offset);
    if alignment == 1 {
      assert AlignUp(offset, 1) == offset;
    } else if alignment == 2 {
      assert AlignUp(offset, 2) == (offset + 1) / 2 * 2;
    } else if alignment == 4 {
      assert AlignUp(offset, 4) == (offset + 3) / 4 * 4;
    } else {
      assert AlignUp(offset, 8) == (offset + 7) / 8 * 8;
    }
  }

  // ---- One member after another ----

  predicate SingleBool(dataType: nat, arraySize: nat) { dataType == BOOL && arraySize == 0 }

  // A bit of a host byte; its array size is the bit position.
  predicate IsBit(m: Member) { m.dataType == BOOL && m.elementSize == 0 }

  datatype Layout = Layout(members: seq<Member>, offset: nat, bit: nat, host: nat, hosts: nat)

  function Start(): Layout { Layout([], 0, 0, 0, 0) }

  function Digits(n: nat): string
    decreases n
  {
    if n < 10 then ["0123456789"[n]] else Digits(n / 10) + ["0123456789"[n % 10]]
  }

  function HostName(name: string, k: nat): string { "ZZZZZZZZZZ" + name + Digits(k) }

  function PlaceBool(l: Layout, name: string, d: Decl): Layout {
    if l.bit == 0 || l.bit >= 8 then
      Layout(l.members + [Member(HostName(name, l.hosts), SINT, l.offset, 0, 1), Member(d.name, BOOL, l.offset, 0, 0)],
             l.offset + 1, 1, l.offset, l.hosts + 1)
    else
      l.(members := l.members + [Member(d.name, BOOL, l.host, l.bit, 0)], bit := l.bit + 1)
  }

  // Element size, alignment and stored type of a member that is not a single
  // BOOL; none if its template is not registered.
  function Shape(db: Templates, d: Decl): (r: Option<(nat, nat, nat)>)
    ensures r.Some? ==> PowerToEight(r.value.1)
  {
    if Structured(d.dataType) then
      var id := NestedId(d.dataType);
      if id in db then Some((db[id].size, 4, 0x8000 + id)) else None
    else
      var size := if ElementSize(d.dataType) <= 0 then 4 else ElementSize(d.dataType);
      Some((size, TypeAlignment(d.dataType, size), d.dataType))
  }

  function PlaceOther(l: Layout, d: Decl, size: nat, alignment: nat, dataType: nat): Layout
    requires alignment > 0
  {
    var at := AlignUp(l.offset, alignment);
    Layout(l.members + [Member(d.name, dataType, at, d.arraySize, size)],
           at + (if d.arraySize > 0 then size * d.arraySize else size), 0, 0, l.hosts)
  }

  function Place(db: Templates, l: Layout, name: string, d: Decl): Option<Layout> {
    if SingleBool(d.dataType, d.arraySize) then Some(PlaceBool(l, name, d))
    else
      var s := Shape(db, d);
      if s.None? then None else Some(PlaceOther(l, d, s.value.0, s.value.1, s.value.2))
  }

  function PlaceAll(db: Templates, l: Layout, name: string, ds: seq<Decl>): Option<Layout>
    decreases |ds|
  {
    if ds == [] then Some(l)
    else
      var next := Place(db, l, name, ds[0]);
      if next.None? then None else PlaceAll(db, next.value, name, ds[1..])
  }

  function Build(db: Templates, id: nat, name: string, ds: seq<Decl>): Option<Template> {
    var l := PlaceAll(db, Start(), name, ds);
    if l.None? then None
    else Some(Template(id, name, (0x8000 + id) % 0x1_0000, AlignUp(l.value.offset, 4), l.value.members))
  }

  // ---- What a layout must be like ----

  // The bits a member occupies, counted from the start of the structure.
  function Lo(m: Member): nat { if IsBit(m) then 8 * m.offset + m.arraySize else 8 * m.offset }

  function Bytes(m: Member): nat { if m.arraySize > 0 then m.elementSize * m.arraySize else m.elementSize }

  function Hi(m: Member): nat { if IsBit(m) then Lo(m) + 1 else 8 * (m.offset + Bytes(m)) }

  // The hidden byte in front of the first of its bits.
  predicate IsHost(ms: seq<Member>, i: nat)
    requires i < |ms|
  {
    !IsBit(ms[i]) && i + 1 < |ms| && IsBit(ms[i + 1])
  }

  // A member keeps to multiples of its size; structures and strings to four.
  function Grain(m: Member): (w: nat)
    ensures PowerToEight(w)
  {
    if Structured(m.dataType) || !PowerToEight(m.elementSize) then 4 else m.elementSize
  }

  predicate MemberOk(db: Templates, m: Member) {
    if IsBit(m) then m.arraySize < 8
    else
      m.offset % Grain(m) == 0 &&
      if Structured(m.dataType) then
        NestedId(m.dataType) in db && m.elementSize == db[NestedId(m.dataType)].size
      else 0 < m.elementSize <= LARGEST
  }

  // Member j is one of the bits of the host byte i.
  predicate HostOf(ms: seq<Member>, i: nat, j: nat)
    requires i < j < |ms|
  {
    IsHost(ms, i) && ms[j].offset == ms[i].offset && forall k :: i < k <= j ==> IsBit(ms[k])
  }

  // Members stand one behind the other, except that a host byte shares its bits
  // with the members that are its bits.
  predicate Ordered(ms: seq<Member>) {
    forall i, j :: 0 <= i < j < |ms| ==> Hi(ms[i]) <= Lo(ms[j]) || HostOf(ms, i, j)
  }

  // Every bit stands in the byte of the member in front of it, which is another
  // bit or the hidden byte itself.
  predicate Hosted(ms: seq<Member>) {
    forall j :: 0 <= j < |ms| && IsBit(ms[j]) ==>
      j > 0 && ms[j - 1].offset == ms[j].offset && (IsBit(ms[j - 1]) || HostByte(ms[j - 1]))
  }

  predicate HostByte(m: Member) { m.dataType == SINT && m.arraySize == 0 && m.elementSize == 1 }

  predicate Inside(ms: seq<Member>, bytes: nat) { forall i :: 0 <= i < |ms| ==> Hi(ms[i]) <= 8 * bytes }

  predicate MembersOk(db: Templates, ms: seq<Member>) { forall i :: 0 <= i < |ms| ==> MemberOk(db, ms[i]) }

  predicate Kept(db: Templates, ms: seq<Member>, bytes: nat) {
    MembersOk(db, ms) && Inside(ms, bytes) && Ordered(ms) && Hosted(ms)
  }

  predicate TemplateOk(db: Templates, t: Template) {
    t.size % 4 == 0 && Kept(db, t.members, t.size)
  }

  // While members are placed: the bits of an open host byte are behind
  // everything else.
  predicate LayoutOk(db: Templates, l: Layout) {
    && Kept(db, l.members, l.offset)
    && l.bit <= 8
    && (l.bit > 0 ==> HostOpen(l))
  }

  predicate HostOpen(l: Layout) {
    var ms, n := l.members, |l.members|;
    && n > 0 && IsBit(ms[n - 1]) && ms[n - 1].offset == l.host && l.host + 1 == l.offset
    && forall i :: 0 <= i < n ==> Hi(ms[i]) <= 8 * l.host + l.bit || (i < n - 1 && HostOf(ms, i, n - 1))
  }

  lemma StartOk(db: Templates)
    ensures LayoutOk(db, Start())
  {}

  // Members that are added change nothing among those that stand already.
  lemma HostKept(ms: seq<Member>, more: seq<Member>, i: nat, j: nat)
    requires i < j < |ms|
    ensures HostOf(ms + more, i, j) == HostOf(ms, i, j)
  {
    var all := ms + more;
    assert forall k :: 0 <= k < |ms| ==> all[k] == ms[k];
  }

  lemma OrderedWith(ms: seq<Member>, m: Member)
    requires Ordered(ms)
    requires forall i :: 0 <= i < |ms| ==> Hi(ms[i]) <= Lo(m) || HostOf(ms + [m], i, |ms|)
    ensures Ordered(ms + [m])
  {
    hide Hi, Lo, HostOf;
    forall i, j | 0 <= i < j < |ms|
      ensures Hi(ms[i]) <= Lo(ms[j]) || HostOf(ms + [m], i, j)
    {
      HostKept(ms, [m], i, j);
    }
  }

  lemma HostedWith(ms: seq<Member>, m: Member)
    requires Hosted(ms)
    requires IsBit(m) ==> ms != [] && ms[|ms| - 1].offset == m.offset && (IsBit(ms[|ms| - 1]) || HostByte(ms[|ms| - 1]))
    ensures Hosted(ms + [m])
  {
    hide IsBit, HostByte;
  }

  lemma KeptWith(db: Templates, ms: seq<Member>, bytes: nat, m: Member, next: nat)
    requires Kept(db, ms, bytes) && MemberOk(db, m) && bytes <= next && Hi(m) <= 8 * next
    requires forall i :: 0 <= i < |ms| ==> Hi(ms[i]) <= Lo(m) || HostOf(ms + [m], i, |ms|)
    requires IsBit(m) ==> ms != [] && ms[|ms| - 1].offset == m.offset && (IsBit(ms[|ms| - 1]) || HostByte(ms[|ms| - 1]))
    ensures Kept(db, ms + [m], next)
  {
    hide Ordered, Hosted, MemberOk, IsBit, HostByte, Hi, Lo, HostOf;
    OrderedWith(ms, m);
    HostedWith(ms, m);
  }

  // The bits of the open host byte are behind everything else, so that one more
  // of them is, too.
  lemma BehindHost(l: Layout, m: Member)
    requires HostOpen(l) && IsBit(m) && m.offset == l.host && m.arraySize == l.bit
    ensures forall i :: 0 <= i < |l.members| ==> Hi(l.members[i]) <= Lo(m) || HostOf(l.members + [m], i, |l.members|)
  {
    hide Hi;
    var ms, n := l.members, |l.members|;
    forall i | 0 <= i < n
      ensures Hi(ms[i]) <= Lo(m) || HostOf(ms + [m], i, n)
    {
      if i < n - 1 { HostKept(ms, [m], i, n - 1); }
    }
  }

  lemma AddBit(db: Templates, l: Layout, m: Member)
    requires LayoutOk(db, l) && 0 < l.bit < 8 && IsBit(m) && m.offset == l.host && m.arraySize == l.bit
    ensures LayoutOk(db, l.(members := l.members + [m], bit := l.bit + 1))
  {
    hide HostOf, MembersOk, Inside, Ordered, Hosted;
    BehindHost(l, m);
    KeptWith(db, l.members, l.offset, m, l.offset);
  }

  lemma PlaceBoolOk(db: Templates, l: Layout, name: string, d: Decl)
    requires LayoutOk(db, l)
    ensures LayoutOk(db, PlaceBool(l, name, d))
  {
    if l.bit == 0 || l.bit >= 8 {
      NewHost(db, l, Member(HostName(name, l.hosts), SINT, l.offset, 0, 1), Member(d.name, BOOL, l.offset, 0, 0));
    } else {
      AddBit(db, l, Member(d.name, BOOL, l.host, l.bit, 0));
    }
  }

  lemma NewHost(db: Templates, l: Layout, h: Member, m: Member)
    requires LayoutOk(db, l)
    requires h.dataType == SINT && h.offset == l.offset && h.arraySize == 0 && h.elementSize == 1
    requires IsBit(m) && m.offset == l.offset && m.arraySize == 0
    ensures LayoutOk(db, Layout(l.members + [h, m], l.offset + 1, 1, l.offset, l.hosts + 1))
  {
    hide MembersOk, Ordered, Hosted;
    var ms, n := l.members + [h, m], |l.members|;
    KeptWith(db, l.members, l.offset, h, l.offset + 1);
    assert (l.members + [h]) + [m] == ms;
    assert HostOf(ms, n, n + 1);
    KeptWith(db, l.members + [h], l.offset + 1, m, l.offset + 1);
  }

  lemma AddOther(db: Templates, l: Layout, m: Member, next: nat)
    requires LayoutOk(db, l) && MemberOk(db, m) && !IsBit(m) && l.offset <= m.offset && next == m.offset + Bytes(m)
    ensures LayoutOk(db, Layout(l.members + [m], next, 0, 0, l.hosts))
  {
    hide MembersOk, Ordered, Hosted, MemberOk;
    KeptWith(db, l.members, l.offset, m, next);
  }

  lemma PlaceOk(db: Templates, l: Layout, name: string, d: Decl)
    requires LayoutOk(db, l) && Registered(db) && Place(db, l, name, d).Some?
    ensures LayoutOk(db, Place(db, l, name, d).value)
  {
    if SingleBool(d.dataType, d.arraySize) {
      PlaceBoolOk(db, l, name, d);
    } else {
      var s := Shape(db, d).value;
      AlignUpIs(l.offset, s.1);
      ShapeOk(db, d, AlignUp(l.offset, s.1));
      var m := Member(d.name, s.2, AlignUp(l.offset, s.1), d.arraySize, s.0);
      AddOther(db, l, m, m.offset + Bytes(m));
    }
  }

  // Ids fit the twelve bits that a type code has for them.
  predicate Registered(db: Templates) { forall id :: id in db ==> id < 0x1000 }

  lemma ShapeOk(db: Templates, d: Decl, at: nat)
    requires !SingleBool(d.dataType, d.arraySize) && Shape(db, d).Some? && at % Shape(db, d).value.1 == 0
    ensures var s := Shape(db, d).value; var m := Member(d.name, s.2, at, d.arraySize, s.0);
      MemberOk(db, m) && !IsBit(m)
  {}

  lemma {:induction false} PlaceAllOk(db: Templates, l: Layout, name: string, ds: seq<Decl>)
    requires LayoutOk(db, l) && Registered(db) && PlaceAll(db, l, name, ds).Some?
    ensures LayoutOk(db, PlaceAll(db, l, name, ds).value)
    decreases |ds|
  {
    hide LayoutOk, Place;
    if ds != [] {
      PlaceOk(db, l, name, ds[0]);
      PlaceAllOk(db, Place(db, l, name, ds[0]).value, name, ds[1..]);
    }
  }

  // Whatever the declarations: members are aligned within their structure, stand
  // one behind the other except for a host byte and its own bits, and lie inside
  // a size that is a multiple of four.
  lemma BuildOk(db: Templates, id: nat, name: string, ds: seq<Decl>)
    requires Registered(db) && Build(db, id, name, ds).Some?
    ensures TemplateOk(db, Build(db, id, name, ds).value)
  {
    hide LayoutOk, Place, Ordered, Hosted, MembersOk;
    StartOk(db);
    PlaceAllOk(db, Start(), name, ds);
    var l := PlaceAll(db, Start(), name, ds).value;
    AlignUpIs(l.offset, 4);
    LayoutParts(db, l);
  }

  lemma LayoutParts(db: Templates, l: Layout)
    requires LayoutOk(db, l)
    ensures Kept(db, l.members, l.offset)
  {}
}
