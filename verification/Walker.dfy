// Resolving a path of names and indices inside a tag to the bytes or the bit it
// stands for.
module Walker {
  import opened Options
  import opened TagLayout

  datatype Segment = Symbolic(name: string) | Element(index: nat) | Logical

  datatype Tag = Tag(tagType: nat, elementSize: nat, dims: seq<nat>, dataSize: nat, tpl: Option<Template>)

  // ---- Names ----

  function Lower(c: char): char { if 'A' <= c <= 'Z' then c - 'A' + 'a' else c }

  predicate SameName(a: string, b: string) { |a| == |b| && forall i :: 0 <= i < |a| ==> Lower(a[i]) == Lower(b[i]) }

  function FindMember(ms: seq<Member>, name: string, i: nat): (r: Option<nat>)
    requires i <= |ms|
    ensures r.Some? ==> i <= r.value < |ms| && SameName(ms[r.value].name, name)
    ensures forall j :: i <= j < (if r.Some? then r.value else |ms|) ==> !SameName(ms[j].name, name)
    decreases |ms| - i
  {
    if i == |ms| then None
    else if SameName(ms[i].name, name) then Some(i)
    else FindMember(ms, name, i + 1)
  }

  // A capital letter and its small form.
  predicate CasePair(a: char, b: char) { 'A' <= a <= 'Z' && b as int == a as int + 32 }

  predicate UpToCase(a: char, b: char) { a == b || CasePair(a, b) || CasePair(b, a) }

  lemma LowerExact(a: char, b: char)
    ensures Lower(a) == Lower(b) <==> UpToCase(a, b)
  {}

  // Names are the same exactly if they differ in nothing but the case of letters.
  lemma SameNameExact(a: string, b: string)
    ensures SameName(a, b) <==> |a| == |b| && forall i :: 0 <= i < |a| ==> UpToCase(a[i], b[i])
  {
    hide Lower, UpToCase;
    if |a| == |b| {
      forall i | 0 <= i < |a|
        ensures Lower(a[i]) == Lower(b[i]) <==> UpToCase(a[i], b[i])
      {
        LowerExact(a[i], b[i]);
      }
    }
  }

  lemma {:induction false} CaseFinds(ms: seq<Member>, a: string, b: string, i: nat)
    requires i <= |ms| && SameName(a, b)
    ensures FindMember(ms, a, i) == FindMember(ms, b, i)
    decreases |ms| - i
  {
    hide Lower;
    if i < |ms| { CaseFinds(ms, a, b, i + 1); }
  }

  // ---- Where a walk stands ----

  // While dims is not empty the walk is inside an array, and used of its
  // dimensions are indexed; running is the row-major index so far.
  datatype Spot = Spot(
    offset: nat, typ: nat, size: nat, bit: Option<nat>, tpl: Option<Template>, dims: seq<nat>, used: nat, running: nat)

  predicate Pending(s: Spot) { s.dims != [] }

  predicate BoolArray(t: Tag) { t.tagType == BOOL && t.dims != [] }

  function Root(t: Tag): Spot { Spot(0, t.tagType, t.elementSize, None, t.tpl, t.dims, 0, 0) }

  function AtomicSize(typ: nat): nat { if Structured(typ) || ElementSize(typ) <= 0 then 0 else ElementSize(typ) }

  datatype Step = Into(member: nat) | At(index: nat)

  function DimsOf(m: Member): seq<nat> { if m.arraySize > 0 then [m.arraySize] else [] }

  function IntoMember(db: Templates, s: Spot, i: nat): Option<Spot>
    requires s.tpl.Some? && i < |s.tpl.value.members|
  {
    var m := s.tpl.value.members[i];
    var at := s.offset + m.offset;
    if IsBit(m) then Some(Spot(at, m.dataType, 1, Some(m.arraySize), None, [], 0, 0))
    else if Structured(m.dataType) then
      var id := NestedId(m.dataType);
      if id !in db then None else Some(Spot(at, m.dataType, db[id].size, None, Some(db[id]), DimsOf(m), 0, 0))
    else
      var size := if m.elementSize > 0 then m.elementSize else AtomicSize(m.dataType);
      Some(Spot(at, m.dataType, size, None, None, DimsOf(m), 0, 0))
  }

  function AtIndex(boolArray: bool, s: Spot, k: nat): Option<Spot>
    requires Pending(s) && s.used < |s.dims|
  {
    var dim := s.dims[s.used];
    if k >= dim then None
    else
      var running := s.running * dim + k;
      if s.used + 1 < |s.dims| then Some(s.(used := s.used + 1, running := running))
      else if boolArray then
        Some(s.(offset := s.offset + running / 8, bit := Some(running % 8), dims := [], used := 0, running := 0))
      else Some(s.(offset := s.offset + running * s.size, dims := [], used := 0, running := 0))
  }

  function Take(db: Templates, boolArray: bool, s: Spot, step: Step): Option<Spot> {
    match step
    case Into(i) =>
      if s.bit.Some? || Pending(s) || s.tpl.None? || i >= |s.tpl.value.members| then None else IntoMember(db, s, i)
    case At(k) =>
      if s.bit.Some? || !Pending(s) || s.used >= |s.dims| then None else AtIndex(boolArray, s, k)
  }

  // A name stands for the first member it matches.
  function StepOf(s: Spot, seg: Segment): Option<Step>
    requires !seg.Logical?
  {
    match seg
    case Symbolic(name) =>
      if s.tpl.None? then None
      else
        var i := FindMember(s.tpl.value.members, name, 0);
        if i.None? then None else Some(Into(i.value))
    case Element(k) => Some(At(k))
  }

  function Advance(db: Templates, boolArray: bool, s: Spot, seg: Segment): Option<Spot>
    requires !seg.Logical?
  {
    var step := StepOf(s, seg);
    if step.None? then None else Take(db, boolArray, s, step.value)
  }

  datatype Walked = Walked(steps: seq<Step>, spot: Spot)

  // The whole walk: the steps it took and where it ended. An array that is not
  // indexed in every dimension is no place to end.
  function Walk(db: Templates, boolArray: bool, s: Spot, segs: seq<Segment>): Option<Walked>
    decreases |segs|
  {
    if segs == [] then if Pending(s) then None else Some(Walked([], s))
    else if segs[0].Logical? then Walk(db, boolArray, s, segs[1..])
    else
      var next := Advance(db, boolArray, s, segs[0]);
      if next.None? then None
      else
        var rest := Walk(db, boolArray, next.value, segs[1..]);
        if rest.None? then None
        else Some(Walked([StepOf(s, segs[0]).value] + rest.value.steps, rest.value.spot))
  }

  predicate SameSegment(x: Segment, y: Segment) {
    if x.Symbolic? && y.Symbolic? then SameName(x.name, y.name) else x == y
  }

  // However the names in a path are written, it leads to the same place.
  lemma {:induction false} CaseWalks(db: Templates, boolArray: bool, s: Spot, xs: seq<Segment>, ys: seq<Segment>)
    requires |xs| == |ys| && forall i :: 0 <= i < |xs| ==> SameSegment(xs[i], ys[i])
    ensures Walk(db, boolArray, s, xs) == Walk(db, boolArray, s, ys)
    decreases |xs|
  {
    hide Take, SameName;
    if xs != [] {
      if xs[0].Symbolic? && ys[0].Symbolic? && s.tpl.Some? {
        CaseFinds(s.tpl.value.members, xs[0].name, ys[0].name, 0);
      }
      if xs[0].Logical? {
        CaseWalks(db, boolArray, s, xs[1..], ys[1..]);
      } else if Advance(db, boolArray, s, xs[0]).Some? {
        CaseWalks(db, boolArray, Advance(db, boolArray, s, xs[0]).value, xs[1..], ys[1..]);
      }
    }
  }

  // Logical segments between names and indices make no difference.
  lemma {:induction false} LogicalIgnored(db: Templates, boolArray: bool, s: Spot, xs: seq<Segment>, ys: seq<Segment>)
    ensures Walk(db, boolArray, s, xs + [Logical] + ys) == Walk(db, boolArray, s, xs + ys)
    decreases |xs|
  {
    hide Take, StepOf;
    var with, out := xs + [Logical] + ys, xs + ys;
    if xs == [] {
      assert with[1..] == ys && out == ys;
    } else {
      assert with[0] == out[0] == xs[0] && with[1..] == xs[1..] + [Logical] + ys && out[1..] == xs[1..] + ys;
      if xs[0].Logical? {
        LogicalIgnored(db, boolArray, s, xs[1..], ys);
      } else if Advance(db, boolArray, s, xs[0]).Some? {
        LogicalIgnored(db, boolArray, Advance(db, boolArray, s, xs[0]).value, xs[1..], ys);
      }
    }
  }

  // ---- The bits a walk can still reach ----

  function Product(dims: seq<nat>): nat
    decreases |dims|
  {
    if dims == [] then 1 else dims[0] * Product(dims[1..])
  }

  predicate WellUsed(s: Spot) { if Pending(s) then s.used < |s.dims| else s.used == 0 && s.running == 0 }

  function Rest(s: Spot): nat
    requires WellUsed(s)
  {
    Product(s.dims[s.used..])
  }

  // Bits per array element.
  function Unit(boolArray: bool, s: Spot): nat { if boolArray then 1 else 8 * s.size }

  function From(boolArray: bool, s: Spot): nat
    requires WellUsed(s)
  {
    if Pending(s) then 8 * s.offset + s.running * Rest(s) * Unit(boolArray, s)
    else if s.bit.Some? then 8 * s.offset + s.bit.value
    else 8 * s.offset
  }

  function To(boolArray: bool, s: Spot): nat
    requires WellUsed(s)
  {
    if Pending(s) then 8 * s.offset + (s.running + 1) * Rest(s) * Unit(boolArray, s)
    else if s.bit.Some? then 8 * s.offset + s.bit.value + 1
    else 8 * (s.offset + s.size)
  }

  predicate SpotOk(db: Templates, boolArray: bool, s: Spot) {
    && WellUsed(s)
    && (s.bit.Some? ==> s.bit.value < 8 && s.tpl.None? && !Pending(s))
    && (s.tpl.None? ==> 0 < s.size <= LARGEST)
    && (s.tpl.Some? ==> !boolArray && TemplateOk(db, s.tpl.value) && s.tpl.value.size == s.size)
  }

  predicate DbOk(db: Templates) { Registered(db) && forall id :: id in db ==> TemplateOk(db, db[id]) }

  lemma ProductStep(dims: seq<nat>, used: nat)
    requires used < |dims|
    ensures Product(dims[used..]) == dims[used] * Product(dims[used + 1..])
  {
    assert dims[used..][1..] == dims[used + 1..];
  }

  lemma ProductNone(dims: seq<nat>)
    ensures Product(dims[|dims|..]) == 1
  {}

  // A member's bits are what its structure has for it.
  lemma IntoExtent(db: Templates, s: Spot, i: nat)
    requires DbOk(db) && SpotOk(db, false, s) && !Pending(s) && s.bit.None? && s.tpl.Some? && i < |s.tpl.value.members|
    requires IntoMember(db, s, i).Some?
    ensures var m, u := s.tpl.value.members[i], IntoMember(db, s, i).value;
      SpotOk(db, false, u) && From(false, u) == 8 * s.offset + Lo(m) && To(false, u) == 8 * s.offset + Hi(m)
  {
    hide Ordered, Hosted, Inside, AtomicSize;
    var m, u := s.tpl.value.members[i], IntoMember(db, s, i).value;
    assert MemberOk(db, m);
    if m.arraySize > 0 && !IsBit(m) {
      assert u.dims[0..] == [m.arraySize] && u.dims[0..][1..] == [];
      assert Product(u.dims[0..]) == m.arraySize * Product([]) == m.arraySize;
      assert 1 * m.arraySize * (8 * u.size) == 8 * (u.size * m.arraySize);
    }
  }

  lemma Times(a: nat, b: nat, w: nat)
    requires a <= b
    ensures a * w <= b * w
  {}

  lemma Assoc(a: nat, b: nat, c: nat)
    ensures a * b * c == a * (b * c)
  {}

  // Bits per step of the next index.
  function Stride(boolArray: bool, s: Spot): nat
    requires Pending(s) && s.used < |s.dims|
  {
    Product(s.dims[s.used + 1..]) * Unit(boolArray, s)
  }

  lemma PendingExtent(boolArray: bool, s: Spot)
    requires WellUsed(s) && Pending(s)
    ensures var d, w := s.dims[s.used], Stride(boolArray, s);
      From(boolArray, s) == 8 * s.offset + s.running * d * w &&
        To(boolArray, s) == 8 * s.offset + (s.running * d + d) * w
  {
    var d, p, unit := s.dims[s.used], Product(s.dims[s.used + 1..]), Unit(boolArray, s);
    ProductStep(s.dims, s.used);
    Regroup(s.running, d, p, unit);
    Regroup(s.running + 1, d, p, unit);
    assert (s.running + 1) * d == s.running * d + d;
  }

  lemma Regroup(r: nat, d: nat, p: nat, unit: nat)
    ensures r * (d * p) * unit == r * d * (p * unit)
  {
    Assoc(r, d, p);
    Assoc(r * d, p, unit);
  }

  // An index takes one stride of what was left.
  lemma AtExtent(db: Templates, boolArray: bool, s: Spot, k: nat)
    requires SpotOk(db, boolArray, s) && Pending(s) && AtIndex(boolArray, s, k).Some?
    ensures var u, n, w := AtIndex(boolArray, s, k).value, s.running * s.dims[s.used] + k, Stride(boolArray, s);
      SpotOk(db, boolArray, u) && From(boolArray, u) == 8 * s.offset + n * w &&
        To(boolArray, u) == 8 * s.offset + (n + 1) * w
  {
    var u, n, w := AtIndex(boolArray, s, k).value, s.running * s.dims[s.used] + k, Stride(boolArray, s);
    if s.used + 1 < |s.dims| {
      Assoc(n, Product(s.dims[s.used + 1..]), Unit(boolArray, s));
      Assoc(n + 1, Product(s.dims[s.used + 1..]), Unit(boolArray, s));
    } else {
      ProductNone(s.dims);
      assert w == Unit(boolArray, s);
      if boolArray {
        assert n == 8 * (n / 8) + n % 8;
      } else {
        assert 8 * (n * s.size) == n * (8 * s.size);
        assert 8 * (s.offset + n * s.size + s.size) == 8 * s.offset + (n + 1) * (8 * s.size);
      }
    }
  }

  // ---- Where names and indices lead ----

  // Some steps, and then the rest of a walk.
  function Behind(steps: seq<Step>, rest: Option<Walked>): Option<Walked> {
    if rest.None? then None else Some(Walked(steps + rest.value.steps, rest.value.spot))
  }

  function Elements(ks: seq<nat>): (r: seq<Segment>)
    ensures |r| == |ks|
  {
    seq(|ks|, i requires 0 <= i < |ks| => Element(ks[i]))
  }

  function Indices(ks: seq<nat>): (r: seq<Step>)
    ensures |r| == |ks|
  {
    seq(|ks|, i requires 0 <= i < |ks| => At(ks[i]))
  }

  predicate InRange(dims: seq<nat>, ks: seq<nat>)
    requires |dims| == |ks|
  {
    forall i :: 0 <= i < |ks| ==> ks[i] < dims[i]
  }

  // How many elements stand in front of this one: each index by the size of what is
  // left of the array behind it.
  function RowMajor(dims: seq<nat>, ks: seq<nat>): nat
    requires |dims| == |ks|
    decreases |ks|
  {
    if ks == [] then 0 else ks[0] * Product(dims[1..]) + RowMajor(dims[1..], ks[1..])
  }

  // The element with n others in front of it; BOOLs of an array stand in bytes, from
  // the lowest bit.
  function ElementAt(boolArray: bool, s: Spot, n: nat): Spot {
    var u := s.(dims := [], used := 0, running := 0);
    if boolArray then u.(offset := s.offset + n / 8, bit := Some(n % 8)) else u.(offset := s.offset + n * s.size)
  }

  // One index for each dimension leads to the element they number, row by row, and
  // none of them may reach its dimension.
  lemma {:induction false} IndicesLead(db: Templates, boolArray: bool, s: Spot, ks: seq<nat>, tail: seq<Segment>)
    requires s.bit.None? && ks != [] && s.used + |ks| == |s.dims|
    ensures var left := s.dims[s.used..];
      Walk(db, boolArray, s, Elements(ks) + tail) ==
      if !InRange(left, ks) then None
      else
        var n := s.running * Product(left) + RowMajor(left, ks);
        Behind(Indices(ks), Walk(db, boolArray, ElementAt(boolArray, s, n), tail))
    decreases |ks|
  {
    hide Product, RowMajor, ElementAt, Walk, AtIndex;
    var left := s.dims[s.used..];
    assert Elements(ks) + tail == [Element(ks[0])] + (Elements(ks[1..]) + tail);
    assert left[0] == s.dims[s.used] && left[1..] == s.dims[s.used + 1..];
    FirstInRange(left, ks);
    IndexStep(db, boolArray, s, ks[0], Elements(ks[1..]) + tail);
    if ks[0] < left[0] {
      var u := AtIndex(boolArray, s, ks[0]).value;
      var n := s.running * Product(left) + RowMajor(left, ks);
      Horner(s.running, left, ks);
      assert Indices(ks) == [At(ks[0])] + Indices(ks[1..]);
      if |ks| > 1 {
        StillPending(boolArray, s, ks[0]);
        IndicesLead(db, boolArray, u, ks[1..], tail);
        SameElement(boolArray, s, u, n);
        Further([At(ks[0])], Indices(ks[1..]), Walk(db, boolArray, ElementAt(boolArray, s, n), tail));
      } else {
        assert Elements(ks[1..]) + tail == tail && Indices(ks) == [At(ks[0])];
        OneIndex(boolArray, s, ks);
      }
    }
  }

  lemma IndexStep(db: Templates, boolArray: bool, s: Spot, k: nat, rest: seq<Segment>)
    requires s.bit.None? && s.used < |s.dims|
    ensures k < s.dims[s.used] <==> AtIndex(boolArray, s, k).Some?
    ensures Walk(db, boolArray, s, [Element(k)] + rest) ==
      if k >= s.dims[s.used] then None else Behind([At(k)], Walk(db, boolArray, AtIndex(boolArray, s, k).value, rest))
  {
    var segs := [Element(k)] + rest;
    assert segs[0] == Element(k) && segs[1..] == rest;
  }

  lemma StillPending(boolArray: bool, s: Spot, k: nat)
    requires s.used + 1 < |s.dims| && k < s.dims[s.used]
    ensures AtIndex(boolArray, s, k) == Some(s.(used := s.used + 1, running := s.running * s.dims[s.used] + k))
  {}

  lemma Further(a: seq<Step>, b: seq<Step>, rest: Option<Walked>)
    ensures Behind(a, Behind(b, rest)) == Behind(a + b, rest)
  {
    if rest.Some? { assert a + (b + rest.value.steps) == a + b + rest.value.steps; }
  }

  lemma SameElement(boolArray: bool, s: Spot, u: Spot, n: nat)
    requires u == s.(used := u.used, running := u.running)
    ensures ElementAt(boolArray, u, n) == ElementAt(boolArray, s, n)
  {}

  lemma OneIndex(boolArray: bool, s: Spot, ks: seq<nat>)
    requires s.used + 1 == |s.dims| && |ks| == 1 && ks[0] < s.dims[s.used]
    ensures AtIndex(boolArray, s, ks[0]) ==
      Some(ElementAt(boolArray, s, s.running * Product(s.dims[s.used..]) + RowMajor(s.dims[s.used..], ks)))
  {
    var left := s.dims[s.used..];
    assert left[1..] == [] && ks[1..] == [];
    assert Product([]) == 1;
    Horner(s.running, left, ks);
  }

  lemma FirstInRange(dims: seq<nat>, ks: seq<nat>)
    requires |dims| == |ks| > 0
    ensures InRange(dims, ks) <==> ks[0] < dims[0] && InRange(dims[1..], ks[1..])
  {
    if ks[0] < dims[0] && InRange(dims[1..], ks[1..]) {
      forall i | 0 <= i < |ks|
        ensures ks[i] < dims[i]
      {
        if i > 0 { assert ks[1..][i - 1] < dims[1..][i - 1]; }
      }
    }
    if InRange(dims, ks) {
      forall i | 0 <= i < |ks| - 1
        ensures ks[1..][i] < dims[1..][i]
      {
        assert ks[i + 1] < dims[i + 1];
      }
    }
  }

  lemma Horner(r: nat, dims: seq<nat>, ks: seq<nat>)
    requires |dims| == |ks| > 0
    ensures r * Product(dims) + RowMajor(dims, ks) ==
      (r * dims[0] + ks[0]) * Product(dims[1..]) + RowMajor(dims[1..], ks[1..])
  {
    Assoc(r, dims[0], Product(dims[1..]));
    Sum(r * dims[0], ks[0], Product(dims[1..]));
  }

  lemma Sum(a: nat, b: nat, c: nat)
    ensures (a + b) * c == a * c + b * c
  {}

  // What stands where a member does: its own type, and its bit, its structure or its
  // array, whichever it is.
  predicate StandsFor(db: Templates, u: Spot, m: Member, base: nat) {
    && u.offset == base + m.offset && u.typ == m.dataType && u.used == u.running == 0
    && u.bit == (if IsBit(m) then Some(m.arraySize) else None)
    && (u.tpl.Some? <==> Structured(m.dataType))
    && (u.tpl.Some? ==> NestedId(m.dataType) in db && u.tpl.value == db[NestedId(m.dataType)])
    && u.size == (if IsBit(m) then 1 else m.elementSize)
    && (if IsBit(m) || m.arraySize == 0 then u.dims == [] else u.dims == [m.arraySize])
  }

  // A name leads to the first member that has it, up to case, and nowhere if none has.
  lemma NameLeads(db: Templates, s: Spot, name: string, tail: seq<Segment>)
    requires DbOk(db) && SpotOk(db, false, s) && !Pending(s) && s.bit.None? && s.tpl.Some?
    ensures
      var ms := s.tpl.value.members;
      var w := Walk(db, false, s, [Symbolic(name)] + tail);
      if exists i :: 0 <= i < |ms| && SameName(ms[i].name, name) then
        exists i, u :: 0 <= i < |ms| && SameName(ms[i].name, name) &&
          (forall j :: 0 <= j < i ==> !SameName(ms[j].name, name)) &&
          StandsFor(db, u, ms[i], s.offset) && w == Behind([Into(i)], Walk(db, false, u, tail))
      else w.None?
  {
    hide SameName, TemplateOk;
    var ms, segs := s.tpl.value.members, [Symbolic(name)] + tail;
    assert segs[0] == Symbolic(name) && segs[1..] == tail;
    var i := FindMember(ms, name, 0);
    if i.Some? {
      MemberStands(db, s, i.value);
      var u := IntoMember(db, s, i.value).value;
      assert Walk(db, false, s, segs) == Behind([Into(i.value)], Walk(db, false, u, tail));
    }
  }

  lemma MemberStands(db: Templates, s: Spot, i: nat)
    requires DbOk(db) && SpotOk(db, false, s) && s.tpl.Some? && i < |s.tpl.value.members|
    ensures var u := IntoMember(db, s, i); u.Some? && StandsFor(db, u.value, s.tpl.value.members[i], s.offset)
  {
    hide Ordered, Hosted, Inside, AtomicSize;
    assert MemberOk(db, s.tpl.value.members[i]);
  }

  // ---- A step stays inside, and two different steps part for good ----

  predicate Within(boolArray: bool, u: Spot, s: Spot)
    requires WellUsed(u) && WellUsed(s)
  {
    From(boolArray, s) <= From(boolArray, u) && To(boolArray, u) <= To(boolArray, s)
  }

  lemma TakeInside(db: Templates, boolArray: bool, s: Spot, step: Step)
    requires DbOk(db) && SpotOk(db, boolArray, s) && Take(db, boolArray, s, step).Some?
    ensures var u := Take(db, boolArray, s, step).value; SpotOk(db, boolArray, u) && Within(boolArray, u, s)
  {
    hide TemplateOk, From, To;
    match step
    case Into(i) =>
      IntoExtent(db, s, i);
      StructExtent(s);
      MemberInside(db, s.tpl.value, i);
    case At(k) =>
      var n, d, w := s.running * s.dims[s.used] + k, s.dims[s.used], Stride(boolArray, s);
      AtExtent(db, boolArray, s, k);
      PendingExtent(boolArray, s);
      Times(s.running * d, n, w);
      Times(n + 1, s.running * d + d, w);
  }

  lemma StructExtent(s: Spot)
    requires WellUsed(s) && !Pending(s) && s.bit.None?
    ensures From(false, s) == 8 * s.offset && To(false, s) == 8 * (s.offset + s.size)
  {}

  lemma MemberInside(db: Templates, t: Template, i: nat)
    requires TemplateOk(db, t) && i < |t.members|
    ensures Hi(t.members[i]) <= 8 * t.size
  {}

  predicate Apart(boolArray: bool, u: Spot, v: Spot)
    requires WellUsed(u) && WellUsed(v)
  {
    To(boolArray, u) <= From(boolArray, v) || To(boolArray, v) <= From(boolArray, u)
  }

  // Through a hidden host byte, rather than to one of its bits.
  predicate ThroughHost(s: Spot, step: Step) {
    step.Into? && s.tpl.Some? && step.member < |s.tpl.value.members| && IsHost(s.tpl.value.members, step.member)
  }

  lemma TakeApart(db: Templates, boolArray: bool, s: Spot, a: Step, b: Step)
    requires DbOk(db) && SpotOk(db, boolArray, s) && a != b && !ThroughHost(s, a) && !ThroughHost(s, b)
    requires Take(db, boolArray, s, a).Some? && Take(db, boolArray, s, b).Some?
    ensures var u, v := Take(db, boolArray, s, a).value, Take(db, boolArray, s, b).value;
      SpotOk(db, boolArray, u) && SpotOk(db, boolArray, v) && Apart(boolArray, u, v)
  {
    hide From, To, TemplateOk;
    if a.Into? {
      IntoExtent(db, s, a.member);
      IntoExtent(db, s, b.member);
      MembersApart(db, s.tpl.value, a.member, b.member);
    } else {
      var base, w := s.running * s.dims[s.used], Stride(boolArray, s);
      AtExtent(db, boolArray, s, a.index);
      AtExtent(db, boolArray, s, b.index);
      if a.index < b.index {
        Times(base + a.index + 1, base + b.index, w);
      } else {
        Times(base + b.index + 1, base + a.index, w);
      }
    }
  }

  lemma MembersApart(db: Templates, t: Template, i: nat, j: nat)
    requires TemplateOk(db, t) && i < |t.members| && j < |t.members| && i != j
    requires !IsHost(t.members, i) && !IsHost(t.members, j)
    ensures Hi(t.members[i]) <= Lo(t.members[j]) || Hi(t.members[j]) <= Lo(t.members[i])
  {}

  // ---- Whole walks ----

  lemma {:induction false} WalkInside(db: Templates, boolArray: bool, s: Spot, segs: seq<Segment>)
    requires DbOk(db) && SpotOk(db, boolArray, s) && Walk(db, boolArray, s, segs).Some?
    ensures var u := Walk(db, boolArray, s, segs).value.spot;
      SpotOk(db, boolArray, u) && !Pending(u) && Within(boolArray, u, s)
    decreases |segs|
  {
    hide Take, From, To, SpotOk, DbOk;
    if segs != [] {
      if segs[0].Logical? {
        WalkInside(db, boolArray, s, segs[1..]);
      } else {
        TakeInside(db, boolArray, s, StepOf(s, segs[0]).value);
        WalkInside(db, boolArray, Advance(db, boolArray, s, segs[0]).value, segs[1..]);
      }
    }
  }

  predicate NoHost(db: Templates, boolArray: bool, s: Spot, steps: seq<Step>)
    decreases |steps|
  {
    steps == [] ||
    (!ThroughHost(s, steps[0]) && Take(db, boolArray, s, steps[0]).Some? &&
     NoHost(db, boolArray, Take(db, boolArray, s, steps[0]).value, steps[1..]))
  }

  // What is not a structure has nothing further inside.
  predicate Leaf(s: Spot) { s.tpl.None? && !Pending(s) }

  lemma LeafEnds(db: Templates, boolArray: bool, s: Spot, step: Step)
    requires Leaf(s)
    ensures Take(db, boolArray, s, step).None?
  {}

  lemma {:induction false} SameStepsSameSpot(db: Templates, boolArray: bool, s: Spot, xs: seq<Segment>,
    ys: seq<Segment>)
    requires Walk(db, boolArray, s, xs).Some? && Walk(db, boolArray, s, ys).Some?
    requires Walk(db, boolArray, s, xs).value.steps == Walk(db, boolArray, s, ys).value.steps
    ensures Walk(db, boolArray, s, xs) == Walk(db, boolArray, s, ys)
    decreases |xs| + |ys|
  {
    hide Take, StepOf;
    if xs != [] && xs[0].Logical? {
      SameStepsSameSpot(db, boolArray, s, xs[1..], ys);
    } else if ys != [] && ys[0].Logical? {
      SameStepsSameSpot(db, boolArray, s, xs, ys[1..]);
    } else if xs != [] && ys != [] {
      var v, w := Walk(db, boolArray, s, xs).value.steps, Walk(db, boolArray, s, ys).value.steps;
      assert v[0] == w[0] && v[1..] == w[1..];
      SameStepsSameSpot(db, boolArray, Advance(db, boolArray, s, xs[0]).value, xs[1..], ys[1..]);
    }
  }

  lemma StillApart(boolArray: bool, u: Spot, v: Spot, p: Spot, q: Spot)
    requires WellUsed(u) && WellUsed(v) && WellUsed(p) && WellUsed(q)
    requires Apart(boolArray, u, v) && Within(boolArray, p, u) && Within(boolArray, q, v)
    ensures Apart(boolArray, p, q)
  {
    hide From, To;
  }

  // Two walks that end at different leaves end at bits of which none is shared.
  lemma {:induction false} LeavesApart(db: Templates, boolArray: bool, s: Spot, xs: seq<Segment>, ys: seq<Segment>)
    requires DbOk(db) && SpotOk(db, boolArray, s)
    requires Walk(db, boolArray, s, xs).Some? && Walk(db, boolArray, s, ys).Some?
    requires var v, w := Walk(db, boolArray, s, xs).value, Walk(db, boolArray, s, ys).value;
      v.steps != w.steps && Leaf(v.spot) && Leaf(w.spot) &&
      NoHost(db, boolArray, s, v.steps) && NoHost(db, boolArray, s, w.steps)
    ensures var v, w := Walk(db, boolArray, s, xs).value, Walk(db, boolArray, s, ys).value;
      WellUsed(v.spot) && WellUsed(w.spot) && Apart(boolArray, v.spot, w.spot)
    decreases |xs| + |ys|
  {
    hide Take, StepOf, DbOk, ThroughHost, From, To, SpotOk, Within, Apart;
    WalkInside(db, boolArray, s, xs);
    WalkInside(db, boolArray, s, ys);
    SpotUsed(db, boolArray, Walk(db, boolArray, s, xs).value.spot);
    SpotUsed(db, boolArray, Walk(db, boolArray, s, ys).value.spot);
    if xs != [] && xs[0].Logical? {
      LeavesApart(db, boolArray, s, xs[1..], ys);
    } else if ys != [] && ys[0].Logical? {
      LeavesApart(db, boolArray, s, xs, ys[1..]);
    } else if xs == [] {
      LeafEnds(db, boolArray, s, StepOf(s, ys[0]).value);
    } else if ys == [] {
      LeafEnds(db, boolArray, s, StepOf(s, xs[0]).value);
    } else {
      var a, b := StepOf(s, xs[0]).value, StepOf(s, ys[0]).value;
      var u, v := Take(db, boolArray, s, a).value, Take(db, boolArray, s, b).value;
      var p, q := Walk(db, boolArray, s, xs).value, Walk(db, boolArray, s, ys).value;
      assert p.steps[0] == a && p.steps[1..] == Walk(db, boolArray, u, xs[1..]).value.steps;
      assert q.steps[0] == b && q.steps[1..] == Walk(db, boolArray, v, ys[1..]).value.steps;
      TakeInside(db, boolArray, s, a);
      if a == b {
        LeavesApart(db, boolArray, u, xs[1..], ys[1..]);
      } else {
        TakeInside(db, boolArray, s, b);
        TakeApart(db, boolArray, s, a, b);
        WalkInside(db, boolArray, u, xs[1..]);
        WalkInside(db, boolArray, v, ys[1..]);
        SpotUsed(db, boolArray, u);
        SpotUsed(db, boolArray, v);
        StillApart(boolArray, u, v, p.spot, q.spot);
      }
    }
  }

  lemma SpotUsed(db: Templates, boolArray: bool, s: Spot)
    requires SpotOk(db, boolArray, s)
    ensures WellUsed(s)
  {}

  // ---- Tags ----

  predicate TagOk(db: Templates, t: Tag) {
    SpotOk(db, BoolArray(t), Root(t)) && To(BoolArray(t), Root(t)) <= 8 * t.dataSize
  }

  function CountDims(count: int): seq<nat> { if count > 1 then [count] else [] }

  // An atomic tag or a one-dimensional array of them; an array of BOOL is kept
  // as bits, thirty-two to a word.
  function AtomicTag(tagType: nat, count: int): Option<Tag> {
    if ElementSize(tagType) < 0 then None
    else if tagType == BOOL && count > 1 then
      if count % 32 != 0 then None else Some(Tag(tagType, ElementSize(tagType), [count], count / 8, None))
    else
      Some(Tag(tagType, ElementSize(tagType), CountDims(count), ElementSize(tagType) * Product(CountDims(count)), None))
  }

  function AtomicTagDims(tagType: nat, dims: seq<nat>): Option<Tag> {
    if dims == [] || |dims| > 3 || ElementSize(tagType) < 0 then None
    else Some(Tag(tagType, ElementSize(tagType), dims, ElementSize(tagType) * Product(dims), None))
  }

  function StructTag(t: Template, count: int): Tag {
    Tag(t.handle, t.size, CountDims(count), t.size * Product(CountDims(count)), Some(t))
  }

  lemma RootExtent(t: Tag)
    requires t.dims != []
    ensures To(BoolArray(t), Root(t)) == Product(t.dims) * Unit(BoolArray(t), Root(t))
  {
    assert t.dims[0..] == t.dims;
    assert (0 + 1) * Product(t.dims) * Unit(BoolArray(t), Root(t)) == Product(t.dims) * Unit(BoolArray(t), Root(t));
  }

  lemma ArrayFits(n: nat, size: nat, boolArray: bool)
    requires boolArray ==> size == 1
    ensures n * (if boolArray then 1 else 8 * size) <= 8 * (size * n)
  {}

  lemma SizeFits(tagType: nat)
    ensures ElementSize(tagType) <= LARGEST && ElementSize(tagType) != 0 && ElementSize(BOOL) == 1
  {}

  lemma AtomicTagOk(db: Templates, tagType: nat, count: int)
    requires AtomicTag(tagType, count).Some?
    ensures TagOk(db, AtomicTag(tagType, count).value)
  {
    hide ElementSize, Product;
    var t := AtomicTag(tagType, count).value;
    SizeFits(tagType);
    if t.dims != [] {
      RootExtent(t);
      OneDim(count);
      if tagType == BOOL { PackedBits(count); } else { Times8(t.elementSize, count); }
    } else {
      ProductNone(t.dims);
    }
  }

  lemma OneDim(count: nat)
    ensures Product([count]) == count
  {
    assert [count][1..] == [];
  }

  lemma AtomicTagDimsOk(db: Templates, tagType: nat, dims: seq<nat>)
    requires AtomicTagDims(tagType, dims).Some?
    ensures TagOk(db, AtomicTagDims(tagType, dims).value)
  {
    var t := AtomicTagDims(tagType, dims).value;
    RootExtent(t);
    ArrayFits(Product(dims), t.elementSize, BoolArray(t));
  }

  lemma StructTagOk(db: Templates, t: Template, count: int)
    requires TemplateOk(db, t) && t.handle >= 0x8000
    ensures TagOk(db, StructTag(t, count))
  {
    var tag := StructTag(t, count);
    if tag.dims != [] {
      RootExtent(tag);
      ArrayFits(Product(tag.dims), tag.elementSize, false);
    }
  }

  // The buffer holds no more than that; only the BOOLs of an array given by its
  // dimensions are packed into the first eighth of it.
  lemma AtomicTagExact(tagType: nat, count: int)
    requires AtomicTag(tagType, count).Some?
    ensures var t := AtomicTag(tagType, count).value;
      t.tagType == tagType && t.dims == (if count > 1 then [count] else []) &&
      8 * t.dataSize == To(BoolArray(t), Root(t))
  {
    hide ElementSize;
    var t := AtomicTag(tagType, count).value;
    if count > 1 {
      RootExtent(t);
      assert Product(t.dims) == count * Product(t.dims[1..]) == count;
      if tagType == BOOL { PackedBits(count); } else { Times8(t.elementSize, count); }
    } else {
      assert Product([]) == 1;
    }
  }

  lemma PackedBits(count: nat)
    requires count % 32 == 0
    ensures 8 * (count / 8) == count * 1
  {
    var words := count / 32;
    assert count == (4 * words) * 8;
    assert count / 8 == 4 * words;
  }

  lemma Times8(size: nat, count: nat)
    ensures 8 * (size * count) == count * (8 * size)
  {}

  lemma AtomicTagDimsExact(tagType: nat, dims: seq<nat>)
    requires AtomicTagDims(tagType, dims).Some?
    ensures var t := AtomicTagDims(tagType, dims).value;
      t.tagType == tagType && t.dims == dims && 1 <= |dims| <= 3 &&
      (if tagType == BOOL then t.dataSize else 8 * t.dataSize) == To(BoolArray(t), Root(t))
  {
    var t := AtomicTagDims(tagType, dims).value;
    RootExtent(t);
    assert 8 * (t.elementSize * Product(dims)) == Product(dims) * (8 * t.elementSize);
  }

  lemma StructTagExact(t: Template, count: int)
    requires t.handle >= 0x8000
    ensures var tag := StructTag(t, count);
      tag.tpl == Some(t) && tag.dims == (if count > 1 then [count] else []) &&
      8 * tag.dataSize == To(BoolArray(tag), Root(tag))
  {
    var tag := StructTag(t, count);
    if tag.dims != [] {
      RootExtent(tag);
      assert 8 * (t.size * Product(tag.dims)) == Product(tag.dims) * (8 * t.size);
    } else {
      assert Product([]) == 1;
    }
  }

  function Resolve(db: Templates, t: Tag, segs: seq<Segment>): Option<Walked> { Walk(db, BoolArray(t), Root(t), segs) }

  lemma {:induction false} TooFewIndices(db: Templates, boolArray: bool, s: Spot, ks: seq<nat>)
    requires s.bit.None? && s.used + |ks| < |s.dims|
    ensures Walk(db, boolArray, s, Elements(ks)).None?
    decreases |ks|
  {
    hide AtIndex;
    if ks != [] {
      assert Elements(ks) == [Element(ks[0])] + Elements(ks[1..]);
      IndexStep(db, boolArray, s, ks[0], Elements(ks[1..]));
      if ks[0] < s.dims[s.used] {
        StillPending(boolArray, s, ks[0]);
        TooFewIndices(db, boolArray, AtIndex(boolArray, s, ks[0]).value, ks[1..]);
      }
    }
  }

  lemma NoFurtherIndex(db: Templates, boolArray: bool, s: Spot, ks: seq<nat>)
    requires !Pending(s) && ks != []
    ensures Walk(db, boolArray, s, Elements(ks)).None?
  {
    assert Elements(ks)[0] == Element(ks[0]);
  }

  function ElementOf(t: Tag, n: nat): Spot {
    if BoolArray(t) then Spot(n / 8, BOOL, t.elementSize, Some(n % 8), t.tpl, [], 0, 0)
    else Spot(n * t.elementSize, t.tagType, t.elementSize, None, t.tpl, [], 0, 0)
  }

  lemma RootElement(t: Tag, n: nat)
    ensures t.dims != [] ==> ElementAt(BoolArray(t), Root(t), n) == ElementOf(t, n)
  {}

  lemma FrontLeads(db: Templates, t: Tag, ks: seq<nat>, tail: seq<Segment>)
    requires t.dims != [] && |ks| == |t.dims|
    ensures Resolve(db, t, Elements(ks) + tail) ==
      if !InRange(t.dims, ks) then None
      else Behind(Indices(ks), Walk(db, BoolArray(t), ElementOf(t, RowMajor(t.dims, ks)), tail))
  {
    hide AtIndex, Product, RowMajor, ElementAt, ElementOf, Walk, InRange;
    assert t.dims[0..] == t.dims;
    IndicesLead(db, BoolArray(t), Root(t), ks, tail);
    RootElement(t, RowMajor(t.dims, ks));
  }

  lemma TooManyIndices(db: Templates, t: Tag, ks: seq<nat>)
    requires t.dims != [] && |ks| > |t.dims|
    ensures Resolve(db, t, Elements(ks)).None?
  {
    hide AtIndex, Product, ElementAt, RowMajor, InRange, Walk, BoolArray;
    var front, rest := ks[..|t.dims|], ks[|t.dims|..];
    assert Elements(ks) == Elements(front) + Elements(rest);
    FrontLeads(db, t, front, Elements(rest));
    if InRange(t.dims, front) {
      NoFurtherIndex(db, BoolArray(t), ElementOf(t, RowMajor(t.dims, front)), rest);
    }
  }

  lemma EnoughIndices(db: Templates, t: Tag, ks: seq<nat>)
    requires t.dims != [] && |ks| == |t.dims|
    ensures Resolve(db, t, Elements(ks)) ==
      if !InRange(t.dims, ks) then None else Some(Walked(Indices(ks), ElementOf(t, RowMajor(t.dims, ks))))
  {
    hide AtIndex, Product, ElementAt, RowMajor, InRange, BoolArray;
    FrontLeads(db, t, ks, []);
    assert Elements(ks) + [] == Elements(ks) && Indices(ks) + [] == Indices(ks);
  }

  // A tag takes exactly as many indices as it has dimensions, each inside its own; what
  // they lead to has the type of the tag and stands in row-major order.
  lemma TagElements(db: Templates, t: Tag, ks: seq<nat>)
    ensures Resolve(db, t, Elements(ks)) ==
      if |ks| != |t.dims| || !InRange(t.dims, ks) then None
      else Some(Walked(Indices(ks), ElementOf(t, RowMajor(t.dims, ks))))
  {
    hide AtIndex, Product, ElementAt, RowMajor, InRange, ElementOf;
    if |ks| < |t.dims| {
      TooFewIndices(db, BoolArray(t), Root(t), ks);
    } else if t.dims == [] {
      NoDims(t, ks);
      if ks != [] { NoFurtherIndex(db, BoolArray(t), Root(t), ks); }
    } else if |ks| == |t.dims| {
      EnoughIndices(db, t, ks);
    } else {
      TooManyIndices(db, t, ks);
    }
  }

  lemma NoDims(t: Tag, ks: seq<nat>)
    requires t.dims == []
    ensures ks == [] ==> InRange(t.dims, ks) && Root(t) == ElementOf(t, RowMajor(t.dims, ks))
  {}

  // Every successful walk ends inside the tag, at any depth of nesting and in
  // any number of dimensions.
  lemma WalkLandsInside(db: Templates, t: Tag, segs: seq<Segment>)
    requires DbOk(db) && TagOk(db, t) && Resolve(db, t, segs).Some?
    ensures var s := Resolve(db, t, segs).value.spot;
      if s.bit.Some? then s.bit.value < 8 && s.offset < t.dataSize else s.offset + s.size <= t.dataSize
  {
    WalkInside(db, BoolArray(t), Root(t), segs);
  }

  // A bit stands in one byte.
  function Width(s: Spot): nat { if s.bit.Some? then 1 else s.size }

  // Do two byte-or-bit footprints share nothing?
  predicate Disjoint(a: Spot, b: Spot) {
    if a.bit.Some? && b.bit.Some? then a.offset != b.offset || a.bit != b.bit
    else a.offset + Width(a) <= b.offset || b.offset + Width(b) <= a.offset
  }

  // And two that end at different leaves share neither byte nor bit.
  lemma WalksDisjoint(db: Templates, t: Tag, xs: seq<Segment>, ys: seq<Segment>)
    requires DbOk(db) && TagOk(db, t) && Resolve(db, t, xs).Some? && Resolve(db, t, ys).Some?
    requires var v, w := Resolve(db, t, xs).value, Resolve(db, t, ys).value;
      v.steps != w.steps && Leaf(v.spot) && Leaf(w.spot) &&
      NoHost(db, BoolArray(t), Root(t), v.steps) && NoHost(db, BoolArray(t), Root(t), w.steps)
    ensures Disjoint(Resolve(db, t, xs).value.spot, Resolve(db, t, ys).value.spot)
  {
    hide Walk, DbOk, NoHost;
    WalkInside(db, BoolArray(t), Root(t), xs);
    WalkInside(db, BoolArray(t), Root(t), ys);
    LeavesApart(db, BoolArray(t), Root(t), xs, ys);
    ApartDisjoint(db, BoolArray(t), Resolve(db, t, xs).value.spot, Resolve(db, t, ys).value.spot);
  }

  lemma ApartDisjoint(db: Templates, boolArray: bool, a: Spot, b: Spot)
    requires SpotOk(db, boolArray, a) && SpotOk(db, boolArray, b) && !Pending(a) && !Pending(b) &&
      Apart(boolArray, a, b)
    ensures Disjoint(a, b)
  {}
}
