// The layout of a structure told from its members alone: every member stands at
// the first multiple of its own width that is free, and BOOLs fill host bytes from
// the lowest bit. No other offsets do.
module NaturalLayout {
  import opened TagLayout

  // What each atomic type occupies.
  lemma Sizes(t: nat)
    ensures t % 0x100 in {0xC1, 0xC2, 0xC6, 0xD1} ==> ElementSize(t) == 1
    ensures t % 0x100 in {0xC3, 0xC7, 0xD2} ==> ElementSize(t) == 2
    ensures t % 0x100 in {0xC4, 0xC8, 0xCA, 0xD3} ==> ElementSize(t) == 4
    ensures t % 0x100 in {0xC5, 0xC9, 0xCB, 0xD4} ==> ElementSize(t) == 8
    ensures t % 0x100 == 0xDA ==> ElementSize(t) == 81
    ensures ElementSize(t) > 0 <==> 0xC1 <= t % 0x100 <= 0xCB || 0xD1 <= t % 0x100 <= 0xD4 || t % 0x100 == 0xDA
  {}

  // Where the bytes of the members so far end.
  function End(ms: seq<Member>): nat {
    if ms == [] then 0
    else
      var m := ms[|ms| - 1];
      m.offset + if IsBit(m) then 1 else Bytes(m)
  }

  predicate LastBit(ms: seq<Member>) { ms != [] && IsBit(ms[|ms| - 1]) }

  // A host byte holds its first bit, and is begun only when there is no byte with
  // room in front of it.
  predicate FirstBit(ms: seq<Member>, m: Member) {
    && ms != [] && HostByte(ms[|ms| - 1]) && ms[|ms| - 1].offset == m.offset && m.arraySize == 0
    && (LastBit(ms[..|ms| - 1]) ==> ms[|ms| - 2].arraySize == 7)
  }

  predicate NextBit(ms: seq<Member>, m: Member) {
    LastBit(ms) && ms[|ms| - 1].offset == m.offset && m.arraySize == ms[|ms| - 1].arraySize + 1 < 8
  }

  // A member behind the ones before it.
  predicate Placed(ms: seq<Member>, m: Member) {
    if IsBit(m) then FirstBit(ms, m) || NextBit(ms, m)
    else m.offset % Grain(m) == 0 && End(ms) <= m.offset < End(ms) + Grain(m)
  }

  predicate Tight(ms: seq<Member>) { forall i :: 0 <= i < |ms| ==> Placed(ms[..i], ms[i]) }

  lemma TightWith(ms: seq<Member>, m: Member)
    requires Tight(ms) && Placed(ms, m)
    ensures Tight(ms + [m])
  {
    hide Placed;
    forall i | 0 <= i < |ms + [m]|
      ensures Placed((ms + [m])[..i], (ms + [m])[i])
    {
      assert (ms + [m])[..i] == if i < |ms| then ms[..i] else ms;
    }
  }

  // ---- What the layout so far keeps ----

  predicate Standing(l: Layout) {
    && Tight(l.members) && l.offset == End(l.members) && l.bit <= 8 && (l.bit > 0 <==> LastBit(l.members))
    && (l.bit > 0 ==> var last := l.members[|l.members| - 1]; last.arraySize + 1 == l.bit && last.offset == l.host)
  }

  lemma AlignsToWidth(db: Templates, d: Decl, m: Member)
    requires !SingleBool(d.dataType, d.arraySize) && Shape(db, d).Some?
    requires m.elementSize == Shape(db, d).value.0 && m.dataType == Shape(db, d).value.2
    ensures Shape(db, d).value.1 == Grain(m) && !IsBit(m)
  {
    if Structured(d.dataType) {
      assert Structured(m.dataType);
    } else {
      Sizes(d.dataType);
    }
  }

  lemma OtherStands(db: Templates, l: Layout, d: Decl)
    requires Standing(l) && !SingleBool(d.dataType, d.arraySize) && Shape(db, d).Some?
    ensures var s := Shape(db, d).value; Standing(PlaceOther(l, d, s.0, s.1, s.2))
  {
    hide Tight, Shape;
    var s := Shape(db, d).value;
    var m := Member(d.name, s.2, AlignUp(l.offset, s.1), d.arraySize, s.0);
    AlignsToWidth(db, d, m);
    AlignUpIs(l.offset, s.1);
    TightWith(l.members, m);
  }

  lemma BoolStands(l: Layout, name: string, d: Decl)
    requires Standing(l) && SingleBool(d.dataType, d.arraySize)
    ensures Standing(PlaceBool(l, name, d))
  {
    hide Tight;
    if l.bit == 0 || l.bit >= 8 {
      var h, m := Member(HostName(name, l.hosts), SINT, l.offset, 0, 1), Member(d.name, BOOL, l.offset, 0, 0);
      assert Grain(h) == 1;
      TightWith(l.members, h);
      assert (l.members + [h])[..|l.members|] == l.members;
      TightWith(l.members + [h], m);
      assert l.members + [h] + [m] == l.members + [h, m];
    } else {
      TightWith(l.members, Member(d.name, BOOL, l.host, l.bit, 0));
    }
  }

  lemma PlaceStands(db: Templates, l: Layout, name: string, d: Decl)
    requires Standing(l) && Place(db, l, name, d).Some?
    ensures Standing(Place(db, l, name, d).value)
  {
    hide Standing, PlaceBool, PlaceOther, Shape;
    if SingleBool(d.dataType, d.arraySize) { BoolStands(l, name, d); } else { OtherStands(db, l, d); }
  }

  lemma {:induction false} AllStand(db: Templates, l: Layout, name: string, ds: seq<Decl>)
    requires Standing(l) && PlaceAll(db, l, name, ds).Some?
    ensures Standing(PlaceAll(db, l, name, ds).value)
    decreases |ds|
  {
    hide Standing, Place;
    if ds != [] {
      PlaceStands(db, l, name, ds[0]);
      AllStand(db, Place(db, l, name, ds[0]).value, name, ds[1..]);
    }
  }

  lemma StartStands()
    ensures Standing(Start())
  {}

  // Whatever the declarations, the layout built is tight, and its size the first
  // multiple of four behind it.
  lemma BuildTight(db: Templates, id: nat, name: string, ds: seq<Decl>)
    requires Build(db, id, name, ds).Some?
    ensures var t := Build(db, id, name, ds).value;
      Tight(t.members) && t.size % 4 == 0 && End(t.members) <= t.size < End(t.members) + 4
  {
    hide Tight, Standing;
    StartStands();
    AllStand(db, Start(), name, ds);
    AlignUpIs(PlaceAll(db, Start(), name, ds).value.offset, 4);
    StandingEnds(PlaceAll(db, Start(), name, ds).value);
  }

  lemma StandingEnds(l: Layout)
    requires Standing(l)
    ensures Tight(l.members) && l.offset == End(l.members)
  {}

  // ---- No other layout is tight ----

  predicate SameShape(a: Member, b: Member) {
    a.dataType == b.dataType && a.elementSize == b.elementSize && (IsBit(a) || a.arraySize == b.arraySize)
  }

  predicate SamePlace(a: Member, b: Member) { a.offset == b.offset && a.arraySize == b.arraySize }

  lemma OneMultiple(w: nat, e: nat, a: nat, b: nat)
    requires PowerToEight(w) && a % w == 0 && b % w == 0 && e <= a < e + w && e <= b < e + w
    ensures a == b
  {}

  lemma PlacedOnce(ps: seq<Member>, qs: seq<Member>, m: Member, n: Member)
    requires |ps| == |qs| && forall i :: 0 <= i < |ps| ==> SameShape(ps[i], qs[i]) && SamePlace(ps[i], qs[i])
    requires SameShape(m, n) && Placed(ps, m) && Placed(qs, n)
    ensures SamePlace(m, n)
  {
    if !IsBit(m) { OneMultiple(Grain(m), End(ps), m.offset, n.offset); }
  }

  // The kinds of the members, in order, leave no choice of their places.
  lemma {:induction false} OnlyLayout(xs: seq<Member>, ys: seq<Member>, n: nat)
    requires Tight(xs) && Tight(ys) && n <= |xs| == |ys| && forall i :: 0 <= i < |xs| ==> SameShape(xs[i], ys[i])
    ensures forall i :: 0 <= i < n ==> SamePlace(xs[i], ys[i])
    decreases n
  {
    hide Placed, SameShape, SamePlace;
    if n > 0 {
      OnlyLayout(xs, ys, n - 1);
      PlacedOnce(xs[..n - 1], ys[..n - 1], xs[n - 1], ys[n - 1]);
    }
  }

  // ---- The members are the declared ones ----

  // Without the hidden host bytes.
  function Visible(ms: seq<Member>): seq<Member>
    decreases |ms|
  {
    if ms == [] then []
    else if IsHost(ms, 0) then Visible(ms[1..])
    else [ms[0]] + Visible(ms[1..])
  }

  predicate Declares(db: Templates, d: Decl, m: Member) {
    && m.name == d.name
    && if SingleBool(d.dataType, d.arraySize) then IsBit(m)
    else
      !IsBit(m) && m.arraySize == d.arraySize &&
      if Structured(d.dataType) then
        var id := d.dataType % 0x1000;
        id in db && m.dataType == 0x8000 + id && m.elementSize == db[id].size
      else
        m.dataType == d.dataType && m.elementSize == if ElementSize(d.dataType) > 0 then ElementSize(d.dataType) else 4
  }

  lemma {:induction false} VisibleWith(ms: seq<Member>, m: Member)
    requires LastBit(ms) || !IsBit(m) || ms == []
    ensures Visible(ms + [m]) == Visible(ms) + [m]
    decreases |ms|
  {
    if ms == [] {
      assert [m][1..] == [] && Visible([m]) == [m] + Visible([]);
    } else {
      assert (ms + [m])[1..] == ms[1..] + [m] && (ms + [m])[0] == ms[0];
      assert IsHost(ms + [m], 0) == IsHost(ms, 0);
      if |ms| > 1 { assert ms[1..][|ms| - 2] == ms[|ms| - 1]; }
      VisibleWith(ms[1..], m);
    }
  }

  lemma {:induction false} VisibleHost(ms: seq<Member>, h: Member, m: Member)
    requires !IsBit(h) && IsBit(m)
    ensures Visible(ms + [h, m]) == Visible(ms) + [m]
    decreases |ms|
  {
    if ms == [] {
      var two := [h, m];
      assert ms + two == two && two[1..] == [m] && IsHost(two, 0);
      assert [m][1..] == [] && Visible([m]) == [m] + Visible([]);
      assert Visible(two) == Visible([m]) && Visible(ms) + [m] == [m];
    } else {
      assert (ms + [h, m])[1..] == ms[1..] + [h, m] && (ms + [h, m])[0] == ms[0];
      assert IsHost(ms + [h, m], 0) == IsHost(ms, 0);
      VisibleHost(ms[1..], h, m);
    }
  }

  lemma PlaceShows(db: Templates, l: Layout, name: string, d: Decl)
    requires Standing(l) && Place(db, l, name, d).Some?
    ensures var more := Visible(Place(db, l, name, d).value.members);
      |more| > 0 && more[..|more| - 1] == Visible(l.members) && Declares(db, d, more[|more| - 1])
  {
    hide Tight, AlignUp, Visible, End;
    if SingleBool(d.dataType, d.arraySize) {
      if l.bit == 0 || l.bit >= 8 {
        var h := Member(HostName(name, l.hosts), SINT, l.offset, 0, 1);
        VisibleHost(l.members, h, Member(d.name, BOOL, l.offset, 0, 0));
      } else {
        VisibleWith(l.members, Member(d.name, BOOL, l.host, l.bit, 0));
      }
    } else {
      var s := Shape(db, d).value;
      VisibleWith(l.members, Member(d.name, s.2, AlignUp(l.offset, s.1), d.arraySize, s.0));
    }
  }

  predicate AllDeclared(db: Templates, ds: seq<Decl>, ms: seq<Member>) {
    |ms| == |ds| && forall i :: 0 <= i < |ds| ==> Declares(db, ds[i], ms[i])
  }

  lemma {:induction false} AllShow(db: Templates, l: Layout, name: string, ds: seq<Decl>)
    requires Standing(l) && PlaceAll(db, l, name, ds).Some?
    ensures var more, n := Visible(PlaceAll(db, l, name, ds).value.members), |Visible(l.members)|;
      |more| >= n && more[..n] == Visible(l.members) && AllDeclared(db, ds, more[n..])
    decreases |ds|
  {
    hide Standing, Place, Visible, Declares;
    if ds != [] {
      var next := Place(db, l, name, ds[0]).value;
      PlaceStands(db, l, name, ds[0]);
      PlaceShows(db, l, name, ds[0]);
      AllShow(db, next, name, ds[1..]);
      var more, n := Visible(PlaceAll(db, l, name, ds).value.members), |Visible(l.members)|;
      assert more[n] == more[..n + 1][n] && more[n..] == [more[n]] + more[n + 1..];
      assert more[..n] == more[..n + 1][..n];
    }
  }

  // For every declaration there is one member of its name and kind, in order, and
  // nothing else but host bytes.
  lemma BuildDeclares(db: Templates, id: nat, name: string, ds: seq<Decl>)
    requires Build(db, id, name, ds).Some?
    ensures AllDeclared(db, ds, Visible(Build(db, id, name, ds).value.members))
  {
    hide Standing, Visible, AllDeclared;
    StartStands();
    AllShow(db, Start(), name, ds);
    NoneVisible();
    var more := Visible(Build(db, id, name, ds).value.members);
    assert more[0..] == more;
  }

  lemma NoneVisible()
    ensures Visible([]) == []
  {}

  // ---- The hidden ones are numbered ----

  function HiddenNames(ms: seq<Member>): seq<string>
    decreases |ms|
  {
    if ms == [] then [] else (if IsHost(ms, 0) then [ms[0].name] else []) + HiddenNames(ms[1..])
  }

  function Numbered(name: string, n: nat): (r: seq<string>)
    ensures |r| == n && forall i :: 0 <= i < n ==> r[i] == HostName(name, i)
  {
    seq(n, i requires 0 <= i < n => HostName(name, i))
  }

  lemma {:induction false} HiddenWith(ms: seq<Member>, m: Member)
    requires LastBit(ms) || !IsBit(m) || ms == []
    ensures HiddenNames(ms + [m]) == HiddenNames(ms)
    decreases |ms|
  {
    if ms == [] {
      assert [m][1..] == [] && HiddenNames([m]) == [] + HiddenNames([]);
      assert [] + [m] == [m];
    } else {
      assert (ms + [m])[1..] == ms[1..] + [m] && (ms + [m])[0] == ms[0];
      assert IsHost(ms + [m], 0) == IsHost(ms, 0);
      if |ms| > 1 { assert ms[1..][|ms| - 2] == ms[|ms| - 1]; }
      HiddenWith(ms[1..], m);
    }
  }

  lemma {:induction false} HiddenHost(ms: seq<Member>, h: Member, m: Member)
    requires !IsBit(h) && IsBit(m)
    ensures HiddenNames(ms + [h, m]) == HiddenNames(ms) + [h.name]
    decreases |ms|
  {
    if ms == [] {
      var two := [h, m];
      assert ms + two == two && two[1..] == [m] && IsHost(two, 0);
      assert [m][1..] == [] && HiddenNames([m]) == [] + HiddenNames([]);
      assert HiddenNames(two) == [h.name] + HiddenNames([m]) && HiddenNames(ms) + [h.name] == [h.name];
    } else {
      assert (ms + [h, m])[1..] == ms[1..] + [h, m] && (ms + [h, m])[0] == ms[0];
      assert IsHost(ms + [h, m], 0) == IsHost(ms, 0);
      HiddenHost(ms[1..], h, m);
    }
  }

  lemma PlaceHides(db: Templates, l: Layout, name: string, d: Decl)
    requires Standing(l) && Place(db, l, name, d).Some? && HiddenNames(l.members) == Numbered(name, l.hosts)
    ensures var next := Place(db, l, name, d).value; HiddenNames(next.members) == Numbered(name, next.hosts)
  {
    hide Tight, AlignUp, HiddenNames, End, HostName;
    if SingleBool(d.dataType, d.arraySize) {
      if l.bit == 0 || l.bit >= 8 {
        var h := Member(HostName(name, l.hosts), SINT, l.offset, 0, 1);
        HiddenHost(l.members, h, Member(d.name, BOOL, l.offset, 0, 0));
      } else {
        HiddenWith(l.members, Member(d.name, BOOL, l.host, l.bit, 0));
      }
    } else {
      var s := Shape(db, d).value;
      HiddenWith(l.members, Member(d.name, s.2, AlignUp(l.offset, s.1), d.arraySize, s.0));
    }
  }

  lemma {:induction false} AllHide(db: Templates, l: Layout, name: string, ds: seq<Decl>)
    requires Standing(l) && PlaceAll(db, l, name, ds).Some? && HiddenNames(l.members) == Numbered(name, l.hosts)
    ensures var all := PlaceAll(db, l, name, ds).value; HiddenNames(all.members) == Numbered(name, all.hosts)
    decreases |ds|
  {
    hide Standing, Place, HiddenNames;
    if ds != [] {
      PlaceStands(db, l, name, ds[0]);
      PlaceHides(db, l, name, ds[0]);
      AllHide(db, Place(db, l, name, ds[0]).value, name, ds[1..]);
    }
  }

  function Number(s: string): int
    decreases |s|
  {
    if s == [] then 0 else 10 * Number(s[..|s| - 1]) + (s[|s| - 1] as int - '0' as int)
  }

  lemma {:induction false} DigitsNumber(n: nat)
    ensures Number(Digits(n)) == n
  {
    var last := "0123456789"[n % 10];
    assert last as int - '0' as int == n % 10;
    if n < 10 {
      assert Digits(n) == [last] && [last][..0] == [];
      assert Number([]) == 0;
    } else {
      DigitsNumber(n / 10);
      assert Digits(n)[..|Digits(n)| - 1] == Digits(n / 10);
    }
  }

  lemma HostNamesDiffer(name: string, i: nat, j: nat)
    requires HostName(name, i) == HostName(name, j)
    ensures i == j
  {
    hide Digits;
    var front := "ZZZZZZZZZZ" + name;
    assert HostName(name, i)[|front|..] == Digits(i) && HostName(name, j)[|front|..] == Digits(j);
    DigitsNumber(i);
    DigitsNumber(j);
  }

  // The host bytes of a structure are named by its own name and by consecutive
  // numbers from 0, so no two of them share a name.
  lemma BuildHides(db: Templates, id: nat, name: string, ds: seq<Decl>)
    requires Build(db, id, name, ds).Some?
    ensures
      var hidden := HiddenNames(Build(db, id, name, ds).value.members);
      (forall i :: 0 <= i < |hidden| ==> hidden[i] == HostName(name, i)) &&
      forall i, j :: 0 <= i < j < |hidden| ==> hidden[i] != hidden[j]
  {
    hide Standing, HostName;
    StartStands();
    assert HiddenNames([]) == Numbered(name, 0);
    AllHide(db, Start(), name, ds);
    var hidden := HiddenNames(Build(db, id, name, ds).value.members);
    forall i, j | 0 <= i < j < |hidden|
      ensures hidden[i] != hidden[j]
    {
      if HostName(name, i) == HostName(name, j) { HostNamesDiffer(name, i, j); }
    }
  }
}
