// The application path of a Forward Open, walked segment by segment: once to
// collect what it names, once to find where the safety segment stands.
module ConnectionPath {
  import opened Numbers
  import opened Options
  import opened Words

  // ---- One segment ----

  datatype Kind = Class | Instance | Point | Other

  datatype PathSegment =
    | Halt
    | Key(next: nat)
    | Logical(kind: Kind, value: bv16, next: nat)
    | Skip(next: nat)
    | Data(bytes: seq<bv8>, next: nat)
    | Safety

  function Wide(b: bv8): bv16 { b as bv16 }

  function KindOf(seg: bv8): Kind {
    var t := seg & 0x1C;
    if t == 0x00 then Class else if t == 0x04 then Instance else if t == 0x0C then Point else Other
  }

  function Even(x: nat): nat { if x % 2 != 0 then x + 1 else x }

  function LogicalAt(path: seq<bv8>, off: nat): PathSegment
    requires off < |path|
  {
    var seg, o := path[off], off + 1;
    if seg & 0x03 == 0x00 then
      if o >= |path| then Halt else Logical(KindOf(seg), Wide(path[o]), o + 1)
    else if seg & 0x03 == 0x01 then
      if Even(o) + 2 > |path| then Halt
      else Logical(KindOf(seg), Word(path[Even(o)], path[Even(o) + 1]), Even(o) + 2)
    else Halt
  }

  function PortAt(path: seq<bv8>, off: nat): PathSegment
    requires off < |path|
  {
    if off + 1 >= |path| then Halt
    else if path[off] & 0x10 != 0 then Skip(Even(off + 2 + Value(path[off + 1])))
    else Skip(off + 2)
  }

  function DataAt(path: seq<bv8>, off: nat): PathSegment
    requires off < |path|
  {
    if off + 1 >= |path| then Halt
    else
      var end := off + 2 + 2 * Value(path[off + 1]);
      if end > |path| then Halt else Data(path[off + 2..end], end)
  }

  // The key is looked for first: its type byte would pass for a logical segment.
  function SegmentAt(path: seq<bv8>, off: nat): (r: PathSegment)
    requires off < |path|
    ensures !r.Halt? && !r.Safety? ==> off < r.next
  {
    var seg := path[off];
    if seg == 0x34 then
      if off + 1 >= |path| then Halt
      else Key(off + 2 + if path[off + 1] == 4 || path[off + 1] == 5 then 8 else 0)
    else if seg & 0xE0 == 0x20 then LogicalAt(path, off)
    else if seg & 0xE0 == 0x00 then PortAt(path, off)
    else if seg & 0xE0 == 0x80 then DataAt(path, off)
    else if seg & 0xE0 == 0x40 then
      if seg == 0x50 then Safety
      else if off + 1 >= |path| then Halt
      else Skip(off + 2 + 2 * Value(path[off + 1]))
    else Halt
  }

  // ---- The two walks ----

  datatype Seen = Seen(
    key: bool, cls: Option<bv16>, inst: Option<bv16>, points: seq<bv16>, instances: seq<bv16>,
    safety: seq<bv8>, config: seq<bv8>)

  function Nothing(): Seen { Seen(false, None, None, [], [], [], []) }

  function Note(s: Seen, kind: Kind, value: bv16): Seen {
    match kind
    case Class => s.(cls := Some(value))
    case Instance =>
      s.(inst := Some(value), instances := if |s.instances| < 8 then s.instances + [value] else s.instances)
    case Point => s.(points := if |s.points| < 4 then s.points + [value] else s.points)
    case Other => s
  }

  // Where the safety segment at off ends, if it is all there.
  function SafetyEnd(path: seq<bv8>, off: nat): (r: Option<nat>)
    requires off < |path|
    ensures r.Some? ==> off < r.value <= |path|
  {
    if off + 1 >= |path| then None
    else
      var end := off + 2 + 2 * Value(path[off + 1]);
      if end > |path| then None else Some(end)
  }

  function Walk(path: seq<bv8>, off: nat, s: Seen): Seen
    decreases |path| - off
  {
    if off >= |path| then s
    else
      match SegmentAt(path, off)
      case Halt => s
      case Key(next) => Walk(path, next, s.(key := true))
      case Logical(kind, value, next) => Walk(path, next, Note(s, kind, value))
      case Skip(next) => Walk(path, next, s)
      case Data(bytes, next) => Walk(path, next, s.(config := bytes))
      case Safety =>
        var end := SafetyEnd(path, off);
        if end.None? then s else Walk(path, end.value, s.(safety := path[off..end.value]))
  }

  function Find(path: seq<bv8>, off: nat): (r: Option<nat>)
    ensures r.Some? ==> off <= r.value < |path|
    decreases |path| - off
  {
    if off >= |path| then None
    else
      match SegmentAt(path, off)
      case Halt => None
      case Safety => Some(off)
      case Key(next) => Find(path, next)
      case Logical(_, _, next) => Find(path, next)
      case Skip(next) => Find(path, next)
      case Data(_, next) => Find(path, next)
  }

  // Some originators put this in front of the real path.
  const WRAPPER: seq<bv8> := [0x21, 0x00, 0xFC, 0x04, 0x2C, 0x01]

  function Base(path: seq<bv8>): (n: nat)
    ensures n <= |path|
  {
    if WRAPPER <= path then 6 else 0
  }

  datatype Assemblies = Assemblies(config: Option<bv16>, consumed: Option<bv16>, produced: Option<bv16>)

  // Which assemblies the segments name; the two flags say whether a direction
  // is null.
  function Named(s: Seen, otNull: bool, toNull: bool): Assemblies {
    var assembly := s.cls == Some(4);
    if assembly && |s.points| >= 2 then Assemblies(s.inst, Some(s.points[0]), Some(s.points[1]))
    else if assembly && |s.points| == 1 then
      var p := Some(s.points[0]);
      if !otNull && !toNull then Assemblies(s.inst, p, p)
      else if !otNull then Assemblies(s.inst, p, None)
      else Assemblies(s.inst, None, p)
    else if assembly && |s.points| == 0 && |s.instances| >= 3 then
      Assemblies(Some(s.instances[0]), Some(s.instances[1]), Some(s.instances[2]))
    else if |s.points| >= 2 then Assemblies(None, Some(s.points[0]), Some(s.points[1]))
    else Assemblies(None, None, None)
  }

  function SeenOn(path: seq<bv8>): Seen { Walk(path[Base(path)..], 0, Nothing()) }

  function FindSafety(path: seq<bv8>): Option<nat> {
    var found := Find(path[Base(path)..], 0);
    if found.None? then None else Some(Base(path) + found.value)
  }

  // ---- The two walks as loops ----

  method CollectSegments(whole: seq<bv8>) returns (s: Seen)
    ensures s == SeenOn(whole)
  {
    hide SegmentAt, Note;
    var path := whole[Base(whole)..];
    s := Nothing();
    var off := 0;
    while off < |path|
      invariant Walk(path, off, s) == SeenOn(whole)
      decreases |path| - off
    {
      match SegmentAt(path, off)
      case Halt => return;
      case Key(next) =>
        s, off := s.(key := true), next;
      case Logical(kind, value, next) =>
        s, off := Note(s, kind, value), next;
      case Skip(next) =>
        off := next;
      case Data(bytes, next) =>
        s, off := s.(config := bytes), next;
      case Safety =>
        var end := SafetyEnd(path, off);
        if end.None? { return; }
        s, off := s.(safety := path[off..end.value]), end.value;
    }
  }

  // What the path names, and which of it are the assemblies.
  method ParseConnectionPath(path: seq<bv8>, otNull: bool, toNull: bool) returns (s: Seen, a: Assemblies)
    ensures s == SeenOn(path) && a == Named(s, otNull, toNull)
  {
    s := CollectSegments(path);
    var assembly := s.cls == Some(4);
    a := Assemblies(None, None, None);
    if assembly && |s.points| >= 2 {
      a := Assemblies(s.inst, Some(s.points[0]), Some(s.points[1]));
    } else if assembly && |s.points| == 1 {
      a := a.(config := s.inst);
      if !otNull && !toNull {
        a := a.(consumed := Some(s.points[0]), produced := Some(s.points[0]));
      } else if !otNull {
        a := a.(consumed := Some(s.points[0]));
      } else {
        a := a.(produced := Some(s.points[0]));
      }
    } else if assembly && |s.points| == 0 && |s.instances| >= 3 {
      a := Assemblies(Some(s.instances[0]), Some(s.instances[1]), Some(s.instances[2]));
    } else if |s.points| >= 2 {
      a := a.(consumed := Some(s.points[0]), produced := Some(s.points[1]));
    }
  }

  method FindSafetySegment(whole: seq<bv8>) returns (r: Option<nat>)
    ensures r == FindSafety(whole)
  {
    hide SegmentAt;
    var base := Base(whole);
    var path := whole[base..];
    var off := 0;
    while off < |path|
      invariant Find(path, off) == Find(path, 0)
      decreases |path| - off
    {
      match SegmentAt(path, off)
      case Halt => return None;
      case Safety => return Some(base + off);
      case Key(next) => off := next;
      case Logical(_, _, next) => off := next;
      case Skip(next) => off := next;
      case Data(_, next) => off := next;
    }
    return None;
  }

  // ---- They agree ----

  // The first walk comes to where the second one stops without having captured
  // anything, and captures the segment that stands there, if all of it does.
  lemma {:induction false} WalkPassesFound(path: seq<bv8>, off: nat, s: Seen) returns (t: Seen)
    ensures t.safety == s.safety
    ensures
      var found := Find(path, off);
      if found.None? then Walk(path, off, s) == t
      else Walk(path, off, s) == Walk(path, found.value, t) && SegmentAt(path, found.value) == Safety
    decreases |path| - off
  {
    hide SegmentAt;
    t := s;
    if off < |path| {
      match SegmentAt(path, off)
      case Halt =>
      case Safety =>
      case Key(next) => t := WalkPassesFound(path, next, s.(key := true));
      case Logical(kind, value, next) => t := WalkPassesFound(path, next, Note(s, kind, value));
      case Skip(next) => t := WalkPassesFound(path, next, s);
      case Data(bytes, next) => t := WalkPassesFound(path, next, s.(config := bytes));
    }
  }

  // So a path from which the first walk has captured a safety segment is one in
  // which the second walk finds one, complete.
  lemma CaptureIsFound(path: seq<bv8>)
    ensures SeenOn(path).safety != [] ==>
      FindSafety(path).Some? && SafetyEnd(path, FindSafety(path).value).Some?
  {
    hide SegmentAt;
    var tail := path[Base(path)..];
    var t := WalkPassesFound(tail, 0, Nothing());
    var found := Find(tail, 0);
    if found.Some? {
      assert tail[found.value] == path[Base(path) + found.value];
    }
  }
}
