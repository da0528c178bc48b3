// The tag database: templates laid out as they are added, tags under
// case-insensitive names and instance ids, and the walk as a loop.
module TagDatabase {
  import opened Options
  import opened TagLayout
  import opened Walker

  function LowerAll(s: string): (r: string)
    ensures |r| == |s|
  {
    seq(|s|, i requires 0 <= i < |s| => Lower(s[i]))
  }

  // Two names have one key exactly if they differ in nothing but case.
  lemma KeyExact(a: string, b: string)
    ensures LowerAll(a) == LowerAll(b) <==> SameName(a, b)
  {
    hide Lower;
    if |a| == |b| {
      forall i | 0 <= i < |a|
        ensures LowerAll(a)[i] == LowerAll(b)[i] <==> Lower(a[i]) == Lower(b[i])
      {}
    }
  }

  // ---- The layout ----

  lemma PlaceNext(db: Templates, l: Layout, name: string, ds: seq<Decl>, i: nat)
    requires i < |ds|
    ensures
      var next := Place(db, l, name, ds[i]);
      PlaceAll(db, l, name, ds[i..]) == if next.None? then None else PlaceAll(db, next.value, name, ds[i + 1..])
  {
    hide Place;
    assert ds[i..][1..] == ds[i + 1..];
  }

  // The next single BOOL: a new host byte in front of every eighth.
  method LayOutBool(l: Layout, name: string, d: Decl) returns (r: Layout)
    ensures r == PlaceBool(l, name, d)
  {
    hide HostName;
    var resolved, offset, bit, host, hosts := l.members, l.offset, l.bit, l.host, l.hosts;
    if bit == 0 || bit >= 8 {
      host, bit := offset, 0;
      resolved := resolved + [Member(HostName(name, hosts), SINT, host, 0, 1)];
      hosts, offset := hosts + 1, offset + 1;
    }
    resolved := resolved + [Member(d.name, BOOL, host, bit, 0)];
    bit := bit + 1;
    r := Layout(resolved, offset, bit, host, hosts);
  }

  method ResolveType(db: Templates, d: Decl) returns (r: Option<(nat, nat, nat)>)
    ensures r == Shape(db, d)
  {
    hide TypeAlignment, ElementSize, NestedId, Structured;
    if Structured(d.dataType) {
      var id := NestedId(d.dataType);
      if id !in db { return None; }
      return Some((db[id].size, 4, 0x8000 + id));
    }
    var size := ElementSize(d.dataType);
    if size <= 0 { size := 4; }
    return Some((size, TypeAlignment(d.dataType, size), d.dataType));
  }

  // Lays the members out one by one; stops at a template that is not registered.
  method LayOut(db: Templates, name: string, ds: seq<Decl>) returns (r: Option<Layout>)
    ensures r == PlaceAll(db, Start(), name, ds)
  {
    hide PlaceAll, PlaceBool, Shape, AlignUp, SingleBool;
    var l := Start();
    assert ds[0..] == ds;
    for i := 0 to |ds|
      invariant PlaceAll(db, l, name, ds[i..]) == PlaceAll(db, Start(), name, ds)
    {
      var d := ds[i];
      PlaceNext(db, l, name, ds, i);
      if SingleBool(d.dataType, d.arraySize) {
        l := LayOutBool(l, name, d);
      } else {
        var shape := ResolveType(db, d);
        if shape.None? { return None; }
        var (size, alignment, dataType) := shape.value;
        var offset := AlignUp(l.offset, alignment);
        var resolved := l.members + [Member(d.name, dataType, offset, d.arraySize, size)];
        l := Layout(resolved, offset + (if d.arraySize > 0 then size * d.arraySize else size), 0, 0, l.hosts);
      }
    }
    NothingLeft(db, l, name, ds);
    return Some(l);
  }

  lemma NothingLeft(db: Templates, l: Layout, name: string, ds: seq<Decl>)
    ensures PlaceAll(db, l, name, ds[|ds|..]) == Some(l)
  {}

  // ---- The walk ----

  method FindMemberIn(ms: seq<Member>, name: string) returns (r: Option<nat>)
    ensures r == FindMember(ms, name, 0)
  {
    for i := 0 to |ms|
      invariant FindMember(ms, name, i) == FindMember(ms, name, 0)
    {
      if |ms[i].name| == |name| {
        var eq := true;
        for j := 0 to |name|
          invariant eq <==> forall k :: 0 <= k < j ==> Lower(ms[i].name[k]) == Lower(name[k])
        {
          if Lower(ms[i].name[j]) != Lower(name[j]) { eq := false; }
        }
        if eq { return Some(i); }
      }
    }
    return None;
  }

  method WalkTag(db: Templates, root: Tag, segs: seq<Segment>) returns (r: Option<Spot>)
    ensures r == if Resolve(db, root, segs).Some? then Some(Resolve(db, root, segs).value.spot) else None
  {
    hide IntoMember, AtIndex, FindMember;
    var boolArray := BoolArray(root);
    var s := Root(root);
    for i := 0 to |segs|
      invariant WellUsed(s)
      invariant SameEnd(Walk(db, boolArray, s, segs[i..]), Resolve(db, root, segs))
    {
      var seg := segs[i];
      assert segs[i..][0] == seg && segs[i..][1..] == segs[i + 1..];
      if seg.Symbolic? {
        if s.bit.Some? || Pending(s) || s.tpl.None? { return None; }
        var m := FindMemberIn(s.tpl.value.members, seg.name);
        if m.None? { return None; }
        var next := IntoMember(db, s, m.value);
        if next.None? { return None; }
        IntoUsed(db, s, m.value);
        s := next.value;
      } else if seg.Element? {
        if s.bit.Some? || !Pending(s) { return None; }
        var next := AtIndex(boolArray, s, seg.index);
        if next.None? { return None; }
        AtUsed(boolArray, s, seg.index);
        s := next.value;
      }
    }
    assert segs[|segs|..] == [];
    return if Pending(s) then None else Some(s);
  }

  predicate SameEnd(a: Option<Walked>, b: Option<Walked>) {
    if a.Some? then b.Some? && a.value.spot == b.value.spot else b.None?
  }

  lemma IntoUsed(db: Templates, s: Spot, i: nat)
    requires s.tpl.Some? && i < |s.tpl.value.members| && IntoMember(db, s, i).Some?
    ensures WellUsed(IntoMember(db, s, i).value)
  {}

  lemma AtUsed(boolArray: bool, s: Spot, k: nat)
    requires WellUsed(s) && Pending(s) && AtIndex(boolArray, s, k).Some?
    ensures WellUsed(AtIndex(boolArray, s, k).value)
  {}

  // ---- The database ----

  datatype Entry = Entry(id: nat, name: string, tag: Tag)

  class Database {
    var templates: Templates
    var nextTemplateId: nat
    var byName: map<string, Entry>
    var byInstance: map<nat, string>
    var nextInstanceId: nat

    // Every template is laid out well, every tag fits its type, each name and
    // each instance id has one tag, and the two tables are inverse to each other.
    ghost predicate Valid()
      reads this
    {
      && DbOk(templates)
      && (forall id :: id in templates ==>
        id < nextTemplateId && templates[id].id == id && templates[id].handle == 0x8000 + id)
      && (forall k :: k in byName ==> k == LowerAll(byName[k].name) && TagOk(templates, byName[k].tag))
      && (forall k :: k in byName ==>
        byName[k].id in byInstance && byInstance[byName[k].id] == k && byName[k].id < nextInstanceId)
      && (forall i :: i in byInstance ==> byInstance[i] in byName && byName[byInstance[i]].id == i)
    }

    constructor ()
      ensures Valid() && templates == map[] && byName == map[]
    {
      templates, nextTemplateId := map[], 0x100;
      byName, byInstance, nextInstanceId := map[], map[], 1;
    }

    method AddTemplate(name: string, members: seq<Decl>) returns (t: Option<Template>)
      requires Valid() && nextTemplateId < 0x1000
      modifies this`templates, this`nextTemplateId
      ensures Valid()
      ensures t == Build(old(templates), old(nextTemplateId), name, members)
      ensures templates == if t.Some? then old(templates)[t.value.id := t.value] else old(templates)
    {
      hide DbOk, TagOk, TemplateOk;
      var id := nextTemplateId;
      nextTemplateId := nextTemplateId + 1;
      var layout := LayOut(templates, name, members);
      if layout.None? { return None; }
      var size := AlignUp(layout.value.offset, 4);
      t := Some(Template(id, name, (0x8000 + id) % 0x1_0000, size, layout.value.members));
      AddKeeps(templates, t.value, name, members);
      forall k | k in byName
        ensures TagOk(templates[id := t.value], byName[k].tag)
      {
        TagKept(templates, id, t.value, byName[k].tag);
      }
      templates := templates[id := t.value];
    }

    static lemma AddKeeps(db: Templates, t: Template, name: string, members: seq<Decl>)
      requires DbOk(db) && t.id !in db && t.id < 0x1000 && Build(db, t.id, name, members) == Some(t)
      ensures DbOk(db[t.id := t])
    {
      hide TemplateOk, Build;
      BuildOk(db, t.id, name, members);
      var with := db[t.id := t];
      forall id | id in with
        ensures TemplateOk(with, with[id])
      {
        TemplateKept(db, t.id, t, with[id]);
      }
    }

    static lemma TemplateKept(db: Templates, id: nat, t: Template, u: Template)
      requires id !in db && TemplateOk(db, u)
      ensures TemplateOk(db[id := t], u)
    {
      assert forall i :: 0 <= i < |u.members| ==> MemberOk(db, u.members[i]);
    }

    static lemma TagKept(db: Templates, id: nat, t: Template, tag: Tag)
      requires id !in db && TagOk(db, tag)
      ensures TagOk(db[id := t], tag)
    {
      if tag.tpl.Some? { TemplateKept(db, id, t, tag.tpl.value); }
    }

    // A second tag under a name that differs in case only is refused.
    method Register(name: string, tag: Tag) returns (id: Option<nat>)
      requires Valid() && TagOk(templates, tag)
      modifies this`byName, this`byInstance, this`nextInstanceId
      ensures Valid() && nextInstanceId == old(nextInstanceId) + 1
      ensures id == if LowerAll(name) in old(byName) then None else Some(old(nextInstanceId))
      ensures byName == if id.Some? then old(byName)[LowerAll(name) := Entry(id.value, name, tag)] else old(byName)
    {
      hide DbOk, TagOk, LowerAll;
      var i := nextInstanceId;
      nextInstanceId := nextInstanceId + 1;
      var key := LowerAll(name);
      if key in byName { return None; }
      byInstance := byInstance[i := key];
      byName := byName[key := Entry(i, name, tag)];
      return Some(i);
    }
  }
}
