// Connection paths as lists of segments: what the walk makes of each, and which
// assemblies a path names.
module PathItems {
  import opened Numbers
  import opened Options
  import opened Sequences
  import opened Words
  import opened ConnectionPath

  // ---- Segments as they are written ----

  datatype Item =
    | KeyItem(format: bv8, key: seq<bv8>)
    | ShortItem(kind: Kind, small: bv8)
    | LongItem(kind: Kind, large: bv16)
    | PortItem(port: bv8, link: bv8)
    | AddressItem(port: bv8, address: seq<bv8>)
    | DataItem(data: seq<bv8>)
    | SafetyItem(data: seq<bv8>)
    | NetworkItem(code: bv8, data: seq<bv8>)

  // Even, and as long as its count of words can say.
  predicate Worded(b: seq<bv8>) { |b| % 2 == 0 && |b| <= 510 }

  predicate ItemOk(x: Item) {
    match x
    case KeyItem(format, key) => if format == 4 || format == 5 then |key| == 8 else key == []
    case ShortItem(kind, _) => kind != Other
    case LongItem(kind, _) => kind != Other
    case PortItem(port, _) => port <= 0x0F
    case AddressItem(port, address) => port <= 0x0F && |address| <= 255
    case DataItem(data) => Worded(data)
    case SafetyItem(data) => Worded(data)
    case NetworkItem(code, data) => code <= 0x1F && code != 0x10 && Worded(data)
  }

  function TypeByte(kind: Kind): bv8 {
    match kind
    case Class => 0x20
    case Instance => 0x24
    case Point => 0x2C
    case Other => 0x30
  }

  function Words8(b: seq<bv8>): bv8
    requires Worded(b)
  {
    Octet(|b| / 2)
  }

  function Evened(b: seq<bv8>): (r: seq<bv8>)
    ensures |r| % 2 == 0
  {
    if |b| % 2 == 1 then b + [0x00] else b
  }

  // A first byte and another, and what they announce.
  function Headed(a: bv8, b: bv8, rest: seq<bv8>): (r: seq<bv8>)
    ensures |r| == 2 + |rest|
  {
    [a, b] + rest
  }

  function Bytes(x: Item): (r: seq<bv8>)
    requires ItemOk(x)
    ensures |r| >= 2 && |r| % 2 == 0
  {
    match x
    case KeyItem(format, key) => Headed(0x34, format, key)
    case ShortItem(kind, value) => Headed(TypeByte(kind), value, [])
    case LongItem(kind, value) => Headed(TypeByte(kind) + 1, 0x00, Le16(value))
    case PortItem(port, link) => Headed(port, link, [])
    case AddressItem(port, address) => Headed(0x10 | port, Octet(|address|), Evened(address))
    case DataItem(data) => Headed(0x80, Words8(data), data)
    case SafetyItem(data) => Headed(0x50, Words8(data), data)
    case NetworkItem(code, data) => Headed(0x40 | code, Words8(data), data)
  }

  predicate AllOk(xs: seq<Item>) { forall i :: 0 <= i < |xs| ==> ItemOk(xs[i]) }

  function AllBytes(xs: seq<Item>): seq<bv8>
    requires AllOk(xs)
    decreases |xs|
  {
    if xs == [] then [] else Bytes(xs[0]) + AllBytes(xs[1..])
  }

  // ---- What the walk keeps of them ----

  function Kept(s: Seen, x: Item): Seen
    requires ItemOk(x)
  {
    match x
    case KeyItem(_, _) => s.(key := true)
    case ShortItem(kind, value) => KeptLogical(s, kind, value as bv16)
    case LongItem(kind, value) => KeptLogical(s, kind, value)
    case PortItem(_, _) => s
    case AddressItem(_, _) => s
    case DataItem(data) => s.(config := data)
    case SafetyItem(_) => s.(safety := Bytes(x))
    case NetworkItem(_, _) => s
  }

  function KeptLogical(s: Seen, kind: Kind, value: bv16): Seen {
    match kind
    case Class => s.(cls := Some(value))
    case Instance => s.(inst := Some(value), instances := Least(s.instances + [value], 8))
    case Point => s.(points := Least(s.points + [value], 4))
    case Other => s
  }

  function Least(xs: seq<bv16>, n: nat): seq<bv16> { if |xs| <= n then xs else xs[..n] }

  function AllKept(s: Seen, xs: seq<Item>): Seen
    requires AllOk(xs)
    decreases |xs|
  {
    if xs == [] then s else AllKept(Kept(s, xs[0]), xs[1..])
  }

  // Where the first safety segment stands.
  function FirstSafety(xs: seq<Item>): Option<nat>
    requires AllOk(xs)
    decreases |xs|
  {
    if xs == [] then None
    else if xs[0].SafetyItem? then Some(0)
    else
      var rest := FirstSafety(xs[1..]);
      if rest.None? then None else Some(|Bytes(xs[0])| + rest.value)
  }

  // No more than can be counted was kept before.
  predicate Roomy(s: Seen) { |s.instances| <= 8 && |s.points| <= 4 }

  lemma HereByte(path: seq<bv8>, off: nat, bytes: seq<bv8>, i: nat)
    requires Here(path, off, bytes) && i < |bytes|
    ensures off + i < |path| && path[off + i] == bytes[i]
  {
    assert path[off..off + |bytes|][i] == bytes[i];
  }

  // ---- One segment is read as it was written ----

  predicate Reads(path: seq<bv8>, off: nat, x: Item)
    requires ItemOk(x) && off < |path|
  {
    var next := off + |Bytes(x)|;
    match x
    case KeyItem(_, _) => SegmentAt(path, off) == Key(next)
    case ShortItem(kind, value) => SegmentAt(path, off) == Logical(kind, value as bv16, next)
    case LongItem(kind, value) => SegmentAt(path, off) == Logical(kind, value, next)
    case PortItem(_, _) => SegmentAt(path, off) == Skip(next)
    case AddressItem(_, _) => SegmentAt(path, off) == Skip(next)
    case DataItem(data) => SegmentAt(path, off) == Data(data, next)
    case SafetyItem(_) => SegmentAt(path, off) == Safety && SafetyEnd(path, off) == Some(next)
    case NetworkItem(_, _) => SegmentAt(path, off) == Skip(next)
  }

  lemma TypeByteRead(kind: Kind)
    requires kind != Other
    ensures var b := TypeByte(kind);
      b != 0x34 && b & 0xE0 == 0x20 && b & 0x03 == 0x00 && KindOf(b) == kind &&
      b + 1 != 0x34 && (b + 1) & 0xE0 == 0x20 && (b + 1) & 0x03 == 0x01 && KindOf(b + 1) == kind
  {}

  lemma PortByteRead(port: bv8)
    requires port <= 0x0F
    ensures port != 0x34 && port & 0xE0 == 0x00 && port & 0x10 == 0
    ensures var b := 0x10 | port; b != 0x34 && b & 0xE0 == 0x00 && b & 0x10 != 0
  {}

  lemma NetworkByteRead(code: bv8)
    requires code <= 0x1F && code != 0x10
    ensures var b := 0x40 | code; b != 0x34 && b != 0x50 && b & 0xE0 == 0x40
  {}

  lemma WordsRead(data: seq<bv8>)
    requires Worded(data)
    ensures 2 * Value(Words8(data)) == |data|
  {
    hide Value, Octet;
    OctetValue(|data| / 2);
  }

  lemma LogicalReads(path: seq<bv8>, off: nat, x: Item)
    requires ItemOk(x) && (x.ShortItem? || x.LongItem?) && off % 2 == 0 && Here(path, off, Bytes(x))
    ensures off < |path| && Reads(path, off, x)
  {
    hide TypeByte, KindOf, Words.Word, Lo, Hi;
    HereByte(path, off, Bytes(x), 0);
    HereByte(path, off, Bytes(x), 1);
    TypeByteRead(x.kind);
    if x.LongItem? {
      HereByte(path, off, Bytes(x), 2);
      HereByte(path, off, Bytes(x), 3);
      WordOfBytes(x.large);
    }
  }

  lemma OtherReads(path: seq<bv8>, off: nat, x: Item)
    requires ItemOk(x) && (x.KeyItem? || x.PortItem? || x.AddressItem?) && off % 2 == 0 && Here(path, off, Bytes(x))
    ensures off < |path| && Reads(path, off, x)
  {
    hide Octet, Value;
    HereByte(path, off, Bytes(x), 0);
    HereByte(path, off, Bytes(x), 1);
    if !x.KeyItem? { PortByteRead(x.port); }
    if x.AddressItem? { OctetValue(|x.address|); }
  }

  lemma WordedReads(path: seq<bv8>, off: nat, x: Item)
    requires ItemOk(x) && (x.DataItem? || x.SafetyItem? || x.NetworkItem?) && Here(path, off, Bytes(x))
    ensures off < |path| && Reads(path, off, x)
  {
    hide Words8, Value, Octet;
    HereByte(path, off, Bytes(x), 0);
    HereByte(path, off, Bytes(x), 1);
    WordsRead(x.data);
    if x.NetworkItem? { NetworkByteRead(x.code); }
    if x.DataItem? { HereSplit(path, off, [0x80, Words8(x.data)], x.data); }
  }

  lemma ItemReads(path: seq<bv8>, off: nat, x: Item)
    requires ItemOk(x) && off % 2 == 0 && Here(path, off, Bytes(x))
    ensures off < |path| && Reads(path, off, x)
  {
    hide Bytes, Reads, ItemOk, Here;
    if x.ShortItem? || x.LongItem? {
      LogicalReads(path, off, x);
    } else if x.KeyItem? || x.PortItem? || x.AddressItem? {
      OtherReads(path, off, x);
    } else {
      WordedReads(path, off, x);
    }
  }

  lemma ItemWalks(path: seq<bv8>, off: nat, x: Item, s: Seen)
    requires ItemOk(x) && off % 2 == 0 && Here(path, off, Bytes(x)) && Roomy(s)
    ensures Walk(path, off, s) == Walk(path, off + |Bytes(x)|, Kept(s, x)) && Roomy(Kept(s, x))
    ensures Find(path, off) == if x.SafetyItem? then Some(off) else Find(path, off + |Bytes(x)|)
  {
    hide SegmentAt, Bytes, ItemOk;
    ItemReads(path, off, x);
  }

  lemma PathEnds(path: seq<bv8>, s: Seen)
    ensures Walk(path, |path|, s) == s && Find(path, |path|).None?
  {}

  lemma {:induction false} ItemsWalk(path: seq<bv8>, off: nat, xs: seq<Item>, s: Seen)
    requires AllOk(xs) && off % 2 == 0 && off + |AllBytes(xs)| == |path|
    requires Here(path, off, AllBytes(xs)) && Roomy(s)
    ensures Walk(path, off, s) == AllKept(s, xs)
    ensures var first := FirstSafety(xs);
      Find(path, off) == if first.None? then None else Some(off + first.value)
    decreases |xs|
  {
    hide Bytes, ItemOk, Kept, Walk, Find, Here, Roomy;
    if xs == [] {
      PathEnds(path, s);
    } else {
      HereSplit(path, off, Bytes(xs[0]), AllBytes(xs[1..]));
      ItemWalks(path, off, xs[0], s);
      ItemsWalk(path, off + |Bytes(xs[0])|, xs[1..], Kept(s, xs[0]));
    }
  }

  // A path that does not begin with the wrapper is walked segment by segment.
  lemma PathWalked(xs: seq<Item>)
    requires AllOk(xs) && !(WRAPPER <= AllBytes(xs))
    ensures SeenOn(AllBytes(xs)) == AllKept(Nothing(), xs) && FindSafety(AllBytes(xs)) == FirstSafety(xs)
  {
    hide Walk, Find, AllKept, FirstSafety, AllBytes, AllOk;
    var path := AllBytes(xs);
    assert path[0..|path|] == path && path[0..] == path;
    ItemsWalk(path, 0, xs, Nothing());
  }

  // So is one behind the wrapper, and found where it stands behind it.
  lemma WrappedWalked(xs: seq<Item>)
    requires AllOk(xs)
    ensures SeenOn(WRAPPER + AllBytes(xs)) == AllKept(Nothing(), xs)
    ensures var first := FirstSafety(xs);
      FindSafety(WRAPPER + AllBytes(xs)) == if first.None? then None else Some(6 + first.value)
  {
    hide Walk, Find, AllKept, FirstSafety, AllBytes, AllOk;
    var path := AllBytes(xs);
    assert path[0..|path|] == path && (WRAPPER + path)[6..] == path && WRAPPER <= WRAPPER + path;
    ItemsWalk(path, 0, xs, Nothing());
  }

  // ---- Which assemblies a path names ----

  lemma Unwrapped(xs: seq<Item>)
    requires xs != [] && xs[0] == ShortItem(Class, 0x04) && AllOk(xs)
    ensures !(WRAPPER <= AllBytes(xs))
  {
    assert AllBytes(xs)[0] == 0x20;
  }

  // A configuration instance and two points name all three, in this order.
  lemma TwoPoints(config: bv8, consumed: bv8, produced: bv8, otNull: bool, toNull: bool)
    ensures
      var xs := [ShortItem(Class, 0x04), ShortItem(Instance, config), ShortItem(Point, consumed),
                 ShortItem(Point, produced)];
      Named(SeenOn(AllBytes(xs)), otNull, toNull) ==
      Assemblies(Some(config as bv16), Some(consumed as bv16), Some(produced as bv16))
  {
    hide SeenOn, AllBytes;
    var xs := [ShortItem(Class, 0x04), ShortItem(Instance, config), ShortItem(Point, consumed),
               ShortItem(Point, produced)];
    Unwrapped(xs);
    PathWalked(xs);
    FourKept(xs[0], xs[1], xs[2], xs[3]);
  }

  lemma KeptStep(s: Seen, x: Item, xs: seq<Item>)
    requires AllOk([x] + xs)
    ensures ItemOk(x) && AllOk(xs) && AllKept(s, [x] + xs) == AllKept(Kept(s, x), xs)
  {
    hide Kept, ItemOk;
    assert ([x] + xs)[0] == x && ([x] + xs)[1..] == xs;
    assert forall i :: 0 <= i < |xs| ==> ([x] + xs)[i + 1] == xs[i];
  }

  lemma ThreeKept(x: Item, y: Item, z: Item)
    requires AllOk([x, y, z])
    ensures ItemOk(x) && ItemOk(y) && ItemOk(z)
    ensures AllKept(Nothing(), [x, y, z]) == Kept(Kept(Kept(Nothing(), x), y), z)
  {
    hide Kept, ItemOk;
    assert [x, y, z] == [x] + [y, z] && [y, z] == [y] + [z] && [z] == [z] + [];
    KeptStep(Nothing(), x, [y, z]);
    KeptStep(Kept(Nothing(), x), y, [z]);
    KeptStep(Kept(Kept(Nothing(), x), y), z, []);
  }

  lemma FourKept(x: Item, y: Item, z: Item, w: Item)
    requires AllOk([x, y, z, w])
    ensures ItemOk(x) && ItemOk(y) && ItemOk(z) && ItemOk(w)
    ensures AllKept(Nothing(), [x, y, z, w]) == Kept(Kept(Kept(Kept(Nothing(), x), y), z), w)
  {
    hide Kept, ItemOk;
    assert [x, y, z, w] == [x] + [y, z, w] && [y, z, w] == [y] + [z, w] && [z, w] == [z] + [w] && [w] == [w] + [];
    KeptStep(Nothing(), x, [y, z, w]);
    KeptStep(Kept(Nothing(), x), y, [z, w]);
    KeptStep(Kept(Kept(Nothing(), x), y), z, [w]);
    KeptStep(Kept(Kept(Kept(Nothing(), x), y), z), w, []);
  }

  // One point is that of the direction that is not null, or of both.
  lemma OnePoint(config: bv8, point: bv8, otNull: bool, toNull: bool)
    ensures
      var xs := [ShortItem(Class, 0x04), ShortItem(Instance, config), ShortItem(Point, point)];
      var a := Named(SeenOn(AllBytes(xs)), otNull, toNull);
      a.config == Some(config as bv16) &&
      a.consumed == (if otNull then None else Some(point as bv16)) &&
      a.produced == (if toNull && !otNull then None else Some(point as bv16))
  {
    hide SeenOn, AllBytes;
    var xs := [ShortItem(Class, 0x04), ShortItem(Instance, config), ShortItem(Point, point)];
    Unwrapped(xs);
    PathWalked(xs);
    ThreeKept(xs[0], xs[1], xs[2]);
  }

  // Without points, three instances do; safety originators write them so.
  lemma ThreeInstances(config: bv8, consumed: bv8, produced: bv8, otNull: bool, toNull: bool)
    ensures
      var xs := [ShortItem(Class, 0x04), ShortItem(Instance, config), ShortItem(Instance, consumed),
                 ShortItem(Instance, produced)];
      Named(SeenOn(AllBytes(xs)), otNull, toNull) ==
      Assemblies(Some(config as bv16), Some(consumed as bv16), Some(produced as bv16))
  {
    hide SeenOn, AllBytes, AllOk, AllKept, Kept;
    var x, a, b, c := ShortItem(Class, 0x04), ShortItem(Instance, config), ShortItem(Instance, consumed),
      ShortItem(Instance, produced);
    FourWalked(x, a, b, c);
    InstancesKept(config, consumed, produced);
  }

  lemma FourWalked(x: Item, a: Item, b: Item, c: Item)
    requires x == ShortItem(Class, 0x04) && ItemOk(a) && ItemOk(b) && ItemOk(c)
    ensures AllOk([x, a, b, c])
    ensures SeenOn(AllBytes([x, a, b, c])) == Kept(Kept(Kept(Kept(Nothing(), x), a), b), c)
  {
    hide SeenOn, AllBytes, AllKept, Kept;
    Unwrapped([x, a, b, c]);
    PathWalked([x, a, b, c]);
    FourKept(x, a, b, c);
  }

  lemma InstancesKept(config: bv8, consumed: bv8, produced: bv8)
    ensures
      var seen := Kept(Kept(Kept(Kept(Nothing(), ShortItem(Class, 0x04)), ShortItem(Instance, config)),
                            ShortItem(Instance, consumed)), ShortItem(Instance, produced));
      seen.cls == Some(4) && seen.points == [] &&
      seen.instances == [config as bv16, consumed as bv16, produced as bv16]
  {}

  lemma TwoKept(x: Item, y: Item)
    requires AllOk([x, y])
    ensures ItemOk(x) && ItemOk(y)
    ensures AllKept(Nothing(), [x, y]) == Kept(Kept(Nothing(), x), y)
  {
    hide Kept, ItemOk;
    assert [x, y] == [x] + [y] && [y] == [y] + [];
    KeptStep(Nothing(), x, [y]);
    KeptStep(Kept(Nothing(), x), y, []);
  }

  // Without a class two points still name the two directions, and no less does.
  lemma PointsAlone(consumed: bv8, produced: bv8, otNull: bool, toNull: bool)
    ensures
      var xs := [ShortItem(Point, consumed), ShortItem(Point, produced)];
      Named(SeenOn(AllBytes(xs)), otNull, toNull) ==
      Assemblies(None, Some(consumed as bv16), Some(produced as bv16))
    ensures
      var xs := [ShortItem(Instance, consumed), ShortItem(Point, produced)];
      Named(SeenOn(AllBytes(xs)), otNull, toNull) == Assemblies(None, None, None)
  {
    hide SeenOn, AllBytes;
    PairKept(ShortItem(Point, consumed), ShortItem(Point, produced));
    PairKept(ShortItem(Instance, consumed), ShortItem(Point, produced));
  }

  lemma PairKept(x: Item, y: Item)
    requires ItemOk(x) && ItemOk(y) && x.ShortItem? && y.ShortItem?
    ensures AllOk([x, y]) && SeenOn(AllBytes([x, y])) == Kept(Kept(Nothing(), x), y)
  {
    hide SeenOn, Kept;
    assert AllOk([x, y]);
    assert AllBytes([x, y])[0] != WRAPPER[0];
    PathWalked([x, y]);
    TwoKept(x, y);
  }
}
