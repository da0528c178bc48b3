// A tag's name as text, as path segments on the wire, and back.
module SymbolicPath {
  import opened Numbers
  import opened Options
  import opened Sequences
  import opened TagServices
  import opened Fragments

  // ---- Text: dotted pieces, each a name with bracketed index groups ----

  datatype Piece = Piece(name: string, groups: seq<seq<nat>>)

  function Digit(d: nat): char
    requires d < 10
  {
    '0' + d as char
  }

  function Decimal(n: nat): (s: string)
    ensures s != []
    decreases n
  {
    if n < 10 then [Digit(n)] else Decimal(n / 10) + [Digit(n % 10)]
  }

  function Indices(ns: seq<nat>): string
    requires ns != []
    decreases |ns|
  {
    if |ns| == 1 then Decimal(ns[0]) else Decimal(ns[0]) + "," + Indices(ns[1..])
  }

  predicate IndicesOk(ns: seq<nat>) { ns != [] && forall i :: 0 <= i < |ns| ==> ns[i] < 0x1_0000_0000 }

  predicate GroupsOk(gs: seq<seq<nat>>) { forall i :: 0 <= i < |gs| ==> IndicesOk(gs[i]) }

  function Groups(gs: seq<seq<nat>>): string
    requires GroupsOk(gs)
    decreases |gs|
  {
    if gs == [] then "" else Groups(gs[..|gs| - 1]) + "[" + Indices(gs[|gs| - 1]) + "]"
  }

  // A name whose own end would be taken for an index group.
  predicate EndsInGroup(name: string) {
    name != [] && name[|name| - 1] == ']' &&
    var open := LastIndexOf(name, '[');
    open.Some? && ParseIndices(name[open.value + 1..|name| - 1]).Some?
  }

  predicate IsBytes(s: string) { forall i :: 0 <= i < |s| ==> s[i] as int < 256 }

  // A name is any string of bytes; it may be empty.
  predicate Writable(p: Piece) { IsBytes(p.name) && GroupsOk(p.groups) }

  function PieceText(p: Piece): string
    requires Writable(p)
  {
    p.name + Groups(p.groups)
  }

  predicate AllWritable(ps: seq<Piece>) { ps != [] && forall i :: 0 <= i < |ps| ==> Writable(ps[i]) }

  function Text(ps: seq<Piece>): string
    requires AllWritable(ps)
    decreases |ps|
  {
    if |ps| == 1 then PieceText(ps[0]) else PieceText(ps[0]) + "." + Text(ps[1..])
  }

  // What survives: a name whose length its byte can say, that holds no dot and
  // does not end in a group itself.
  predicate PieceOk(p: Piece) { Writable(p) && |p.name| < 256 && '.' !in p.name && !EndsInGroup(p.name) }

  predicate PiecesOk(ps: seq<Piece>) { ps != [] && forall i :: 0 <= i < |ps| ==> PieceOk(ps[i]) }

  lemma OkWritable(ps: seq<Piece>)
    requires PiecesOk(ps)
    ensures AllWritable(ps)
  {
    hide Writable;
  }

  // ---- Reading the text ----

  function IndexOf(s: string, c: char, i: nat): (r: Option<nat>)
    requires i <= |s|
    ensures r.Some? ==> i <= r.value < |s| && s[r.value] == c
    ensures forall j :: i <= j < (if r.Some? then r.value else |s|) ==> s[j] != c
    decreases |s| - i
  {
    if i == |s| then None else if s[i] == c then Some(i) else IndexOf(s, c, i + 1)
  }

  function LastIndexOf(s: string, c: char): (r: Option<nat>)
    ensures r.Some? ==> r.value < |s| && s[r.value] == c && forall j :: r.value < j < |s| ==> s[j] != c
    ensures r.None? ==> c !in s
    decreases |s|
  {
    if s == [] then None
    else if s[|s| - 1] == c then Some(|s| - 1)
    else LastIndexOf(s[..|s| - 1], c)
  }

  predicate Blank(c: char) { c == ' ' || c == '\t' }

  function Trim(s: string): string
    decreases |s|
  {
    if s != [] && Blank(s[0]) then Trim(s[1..])
    else if s != [] && Blank(s[|s| - 1]) then Trim(s[..|s| - 1])
    else s
  }

  function DigitValue(c: char, base: nat): Option<nat> {
    if '0' <= c <= '9' then Some(c as int - '0' as int)
    else if base == 16 && 'a' <= c <= 'f' then Some(10 + (c as int - 'a' as int))
    else if base == 16 && 'A' <= c <= 'F' then Some(10 + (c as int - 'A' as int))
    else None
  }

  // In thirty-two bits.
  function Accumulate(s: string, base: nat, v: nat): Option<nat>
    decreases |s|
  {
    if s == [] then Some(v)
    else
      var d := DigitValue(s[0], base);
      if d.None? then None else Accumulate(s[1..], base, (v * base + d.value) % 0x1_0000_0000)
  }

  function ParseToken(s: string): Option<nat> {
    var t := Trim(s);
    if t == [] then None
    else if |t| >= 2 && t[0] == '0' && (t[1] == 'x' || t[1] == 'X') then
      if |t| == 2 then None else Accumulate(t[2..], 16, 0)
    else Accumulate(t, 10, 0)
  }

  function ParseIndices(s: string): Option<seq<nat>>
    decreases |s|
  {
    var comma := IndexOf(s, ',', 0);
    var tok := ParseToken(if comma.None? then s else s[..comma.value]);
    if tok.None? then None
    else if comma.None? then Some([tok.value])
    else
      var rest := ParseIndices(s[comma.value + 1..]);
      if rest.None? then None else Some([tok.value] + rest.value)
  }

  // The last group is taken off as long as there is one that reads as indices.
  function SplitBrackets(s: string): (r: (string, seq<seq<nat>>))
    decreases |s|
  {
    if s == [] || s[|s| - 1] != ']' then (s, [])
    else
      var open := LastIndexOf(s, '[');
      if open.None? then (s, [])
      else
        var indices := ParseIndices(s[open.value + 1..|s| - 1]);
        if indices.None? then (s, [])
        else
          var front := SplitBrackets(s[..open.value]);
          (front.0, front.1 + [indices.value])
  }

  // ---- Numbers ----

  lemma DigitRead(d: nat)
    requires d < 10
    ensures DigitValue(Digit(d), 10) == Some(d) && Digit(d) != 'x' && Digit(d) != 'X' && Digit(d) != ',' &&
      Digit(d) != '.'
    ensures Digit(d) != '[' && Digit(d) != ']' && !Blank(Digit(d))
  {}

  predicate AllDigits(s: string) { forall c :: c in s ==> '0' <= c <= '9' }

  lemma {:induction false} DecimalDigits(n: nat)
    ensures AllDigits(Decimal(n))
    decreases n
  {
    if n >= 10 { DecimalDigits(n / 10); }
  }

  lemma {:induction false} AccumulateAppend(s: string, c: char, base: nat, v: nat)
    requires Accumulate(s, base, v).Some? && DigitValue(c, base).Some?
    ensures Accumulate(s + [c], base, v) ==
      Some((Accumulate(s, base, v).value * base + DigitValue(c, base).value) % 0x1_0000_0000)
    decreases |s|
  {
    hide DigitValue;
    if s == [] {
      assert s + [c] == [c] && [c][1..] == [];
    } else {
      assert (s + [c])[1..] == s[1..] + [c];
      AccumulateAppend(s[1..], c, base, (v * base + DigitValue(s[0], base).value) % 0x1_0000_0000);
    }
  }

  lemma OneDigit(c: char)
    requires DigitValue(c, 10).Some?
    ensures Accumulate([c], 10, 0) == DigitValue(c, 10)
  {
    assert [c][1..] == [];
  }

  lemma {:induction false} DecimalRead(n: nat)
    requires n < 0x1_0000_0000
    ensures Accumulate(Decimal(n), 10, 0) == Some(n)
    decreases n
  {
    hide Accumulate, Digit, DigitValue;
    DigitRead(n % 10);
    if n < 10 {
      OneDigit(Digit(n));
    } else {
      DecimalRead(n / 10);
      AccumulateAppend(Decimal(n / 10), Digit(n % 10), 10, 0);
    }
  }

  lemma TokenRead(n: nat)
    requires n < 0x1_0000_0000
    ensures ParseToken(Decimal(n)) == Some(n)
  {
    DecimalDigits(n);
    DecimalRead(n);
    var s := Decimal(n);
    assert s[0] in s && s[|s| - 1] in s;
    assert Trim(s) == s;
    if |s| >= 2 { assert s[1] in s; }
  }

  // ---- Sixteen as a base, and blanks ----

  function HexDigit(d: nat, upper: bool): char
    requires d < 16
  {
    if d < 10 then Digit(d) else if upper then 'A' + (d - 10) as char else 'a' + (d - 10) as char
  }

  function Hex(n: nat, upper: bool): (s: string)
    ensures s != []
    decreases n
  {
    if n < 16 then [HexDigit(n, upper)] else Hex(n / 16, upper) + [HexDigit(n % 16, upper)]
  }

  lemma HexDigitRead(d: nat, upper: bool)
    requires d < 16
    ensures DigitValue(HexDigit(d, upper), 16) == Some(d) && !Blank(HexDigit(d, upper))
  {}

  lemma OneHexDigit(c: char)
    requires DigitValue(c, 16).Some?
    ensures Accumulate([c], 16, 0) == DigitValue(c, 16)
  {
    assert [c][1..] == [];
  }

  lemma {:induction false} HexDigitsRead(n: nat, upper: bool)
    requires n < 0x1_0000_0000
    ensures Accumulate(Hex(n, upper), 16, 0) == Some(n) && !Blank(Hex(n, upper)[|Hex(n, upper)| - 1])
    decreases n
  {
    hide Accumulate, HexDigit, DigitValue, Blank;
    HexDigitRead(n % 16, upper);
    if n < 16 {
      OneHexDigit(HexDigit(n, upper));
    } else {
      HexDigitsRead(n / 16, upper);
      AccumulateAppend(Hex(n / 16, upper), HexDigit(n % 16, upper), 16, 0);
    }
  }

  // Behind 0x or 0X, in either case of letters.
  lemma HexRead(n: nat, x: char, upper: bool)
    requires n < 0x1_0000_0000 && (x == 'x' || x == 'X')
    ensures ParseToken(['0', x] + Hex(n, upper)) == Some(n)
  {
    hide Accumulate, Hex;
    HexDigitsRead(n, upper);
    var s := ['0', x] + Hex(n, upper);
    assert s[|s| - 1] == Hex(n, upper)[|Hex(n, upper)| - 1];
    assert Trim(s) == s && s[2..] == Hex(n, upper);
  }

  lemma {:induction false} TrimBehind(s: string, c: char)
    requires Blank(c)
    ensures Trim(s + [c]) == Trim(s)
    decreases |s|
  {
    var t := s + [c];
    if s == [] {
      assert t[1..] == [] && Trim(t) == Trim([]);
    } else if Blank(s[0]) {
      assert t[1..] == s[1..] + [c];
      TrimBehind(s[1..], c);
    } else {
      assert t[..|t| - 1] == s;
    }
  }

  predicate Spaces(s: string) { forall i :: 0 <= i < |s| ==> s[i] == ' ' || s[i] == '\t' }

  lemma SpaceIsBlank(s: string, i: nat)
    requires Spaces(s) && i < |s|
    ensures Blank(s[i])
  {}

  // Blanks around an index change nothing.
  lemma {:induction false} BlanksRead(before: string, s: string, behind: string)
    requires Spaces(before) && Spaces(behind)
    ensures ParseToken(before + s + behind) == ParseToken(s)
    decreases |before| + |behind|
  {
    hide Accumulate, Blank;
    if before != [] {
      var t := before + s + behind;
      SpaceIsBlank(before, 0);
      assert t[1..] == before[1..] + s + behind && t[0] == before[0];
      BlanksRead(before[1..], s, behind);
    } else if behind != [] {
      var last := |behind| - 1;
      SpaceIsBlank(behind, last);
      assert before + s + behind == (before + s + behind[..last]) + [behind[last]];
      TrimBehind(before + s + behind[..last], behind[last]);
      BlanksRead(before, s, behind[..last]);
    } else {
      assert before + s + behind == s;
    }
  }

  predicate Free(s: string, c: char) { c !in s }

  lemma DigitsFree(s: string, c: char)
    requires AllDigits(s) && !('0' <= c <= '9')
    ensures Free(s, c)
  {}

  lemma FirstIndexOf(a: string, c: char, b: string)
    requires Free(a, c)
    ensures IndexOf(a + [c] + b, c, 0) == Some(|a|)
  {
    var s := a + [c] + b;
    assert s[|a|] == c && forall j :: 0 <= j < |a| ==> s[j] == a[j];
  }

  lemma NoIndexOf(s: string, c: char)
    requires Free(s, c)
    ensures IndexOf(s, c, 0) == None
  {}

  lemma {:induction false} IndicesFree(ns: seq<nat>, c: char)
    requires IndicesOk(ns) && !('0' <= c <= '9') && c != ','
    ensures Free(Indices(ns), c)
    decreases |ns|
  {
    DecimalDigits(ns[0]);
    DigitsFree(Decimal(ns[0]), c);
    if |ns| > 1 { IndicesFree(ns[1..], c); }
  }

  lemma IndicesStep(head: string, n: nat, tail: string, rest: seq<nat>)
    requires Free(head, ',') && ParseToken(head) == Some(n) && ParseIndices(tail) == Some(rest)
    ensures ParseIndices(head + "," + tail) == Some([n] + rest)
  {
    hide ParseToken, IndexOf;
    var s := head + "," + tail;
    FirstIndexOf(head, ',', tail);
    assert s == head + [','] + tail && s[..|head|] == head && s[|head| + 1..] == tail;
  }

  lemma {:induction false} IndicesRead(ns: seq<nat>)
    requires IndicesOk(ns)
    ensures ParseIndices(Indices(ns)) == Some(ns)
    decreases |ns|
  {
    hide Decimal, ParseToken, IndexOf, ParseIndices;
    TokenRead(ns[0]);
    DecimalDigits(ns[0]);
    DigitsFree(Decimal(ns[0]), ',');
    if |ns| == 1 {
      OneIndex(Decimal(ns[0]), ns[0]);
      assert [ns[0]] == ns;
    } else {
      IndicesRead(ns[1..]);
      IndicesStep(Decimal(ns[0]), ns[0], Indices(ns[1..]), ns[1..]);
      assert [ns[0]] + ns[1..] == ns;
    }
  }

  lemma OneIndex(head: string, n: nat)
    requires Free(head, ',') && ParseToken(head) == Some(n)
    ensures ParseIndices(head) == Some([n])
  {
    hide ParseToken, IndexOf;
    NoIndexOf(head, ',');
  }

  // ---- Pieces ----

  lemma {:induction false} LastOpen(a: string, b: string)
    requires Free(b, '[')
    ensures LastIndexOf(a + "[" + b, '[') == Some(|a|)
    decreases |b|
  {
    var s := a + "[" + b;
    if b != [] {
      assert b[|b| - 1] in b;
      assert s[..|s| - 1] == a + "[" + b[..|b| - 1];
      LastOpen(a, b[..|b| - 1]);
    }
  }

  lemma SplitStep(a: string, b: string, indices: seq<nat>)
    requires Free(b, '[') && ParseIndices(b) == Some(indices)
    ensures SplitBrackets(a + "[" + b + "]") == (SplitBrackets(a).0, SplitBrackets(a).1 + [indices])
  {
    hide ParseIndices, LastIndexOf;
    var s := a + "[" + b + "]";
    LastOpen(a, b + "]");
    assert a + "[" + (b + "]") == s;
    assert s[|a| + 1..|s| - 1] == b && s[..|a|] == a;
  }

  // Groups behind a name are split off one by one, and then what the name itself
  // ends in.
  lemma {:induction false} GroupsSplit(name: string, gs: seq<seq<nat>>)
    requires GroupsOk(gs)
    ensures SplitBrackets(name + Groups(gs)) == (SplitBrackets(name).0, SplitBrackets(name).1 + gs)
    decreases |gs|
  {
    hide Indices, ParseIndices, LastIndexOf, SplitBrackets;
    if gs == [] {
      assert name + Groups(gs) == name && SplitBrackets(name).1 + gs == SplitBrackets(name).1;
    } else {
      var front, last := gs[..|gs| - 1], gs[|gs| - 1];
      IndicesRead(last);
      IndicesFree(last, '[');
      GroupsSplit(name, front);
      SplitStep(name + Groups(front), Indices(last), last);
      assert name + Groups(gs) == name + Groups(front) + "[" + Indices(last) + "]";
      assert SplitBrackets(name).1 + gs == SplitBrackets(name).1 + front + [last];
    }
  }

  lemma WholeName(name: string)
    ensures SplitBrackets(name) == (name, []) <==> !EndsInGroup(name)
  {
    hide ParseIndices, LastIndexOf;
  }

  // Name and groups come back exactly if the name does not end in a group itself.
  lemma BracketsSplit(name: string, gs: seq<seq<nat>>)
    requires GroupsOk(gs)
    ensures SplitBrackets(name + Groups(gs)) == (name, gs) <==> !EndsInGroup(name)
  {
    hide SplitBrackets, EndsInGroup, Groups;
    GroupsSplit(name, gs);
    WholeName(name);
    if SplitBrackets(name).1 + gs == gs {
      assert |SplitBrackets(name).1| == 0;
    }
    assert [] + gs == gs;
  }

  lemma {:induction false} GroupsFree(gs: seq<seq<nat>>)
    requires GroupsOk(gs)
    ensures Free(Groups(gs), '.')
    decreases |gs|
  {
    if gs != [] {
      GroupsFree(gs[..|gs| - 1]);
      IndicesFree(gs[|gs| - 1], '.');
    }
  }

  // ---- Path segments ----

  datatype Kind = ClassId | InstanceId | AttributeId | ConnectionPoint | ElementId | Unknown

  datatype Segment = Symbol(name: string) | Element(index: nat) | Logical(kind: Kind, value: nat)

  // A character is a byte.
  function NameBytes(s: string): (r: seq<bv8>)
    ensures |r| == |s| && forall i :: 0 <= i < |s| ==> r[i] == Octet(s[i] as int % 256)
  {
    seq(|s|, i requires 0 <= i < |s| => Octet(s[i] as int % 256))
  }

  function NameOf(b: seq<bv8>): (s: string)
    ensures |s| == |b| && forall i :: 0 <= i < |b| ==> s[i] == Value(b[i]) as char
  {
    seq(|b|, i requires 0 <= i < |b| => Value(b[i]) as char)
  }

  lemma NameRoundTrip(s: string)
    requires IsBytes(s)
    ensures NameOf(NameBytes(s)) == s
  {
    hide Octet, Value;
    forall i | 0 <= i < |s|
      ensures NameOf(NameBytes(s))[i] == s[i]
    {
      OctetValue(s[i] as int);
    }
  }

  function Pad(n: nat): (r: seq<bv8>)
    ensures |r| == n % 2
  {
    if n % 2 != 0 then [0] else []
  }

  function EmitSymbol(name: string): (r: seq<bv8>)
    ensures |r| == 2 + |name| + |name| % 2
  {
    [0x91, Octet(|name| % 256)] + NameBytes(name) + Pad(|name|)
  }

  function EmitElement(v: nat): (r: seq<bv8>)
    ensures |r| == 2 || |r| == 4 || |r| == 6
  {
    if v <= 0xFF then [0x28, Octet(v)]
    else if v <= 0xFFFF then [0x29, 0x00] + Out16(v)
    else [0x2A, 0x00] + Out32(v)
  }

  function EmitIndices(ns: seq<nat>): seq<bv8>
    decreases |ns|
  {
    if ns == [] then [] else EmitElement(ns[0]) + EmitIndices(ns[1..])
  }

  function EmitGroups(gs: seq<seq<nat>>): seq<bv8>
    decreases |gs|
  {
    if gs == [] then [] else EmitIndices(gs[0]) + EmitGroups(gs[1..])
  }

  function EmitPiece(base: string, groups: seq<seq<nat>>): seq<bv8> {
    (if base != [] then EmitSymbol(base) else []) + EmitGroups(groups)
  }

  function PieceBytes(piece: string): seq<bv8> { EmitPiece(SplitBrackets(piece).0, SplitBrackets(piece).1) }

  function BuildPath(text: string): seq<bv8>
    decreases |text|
  {
    var dot := IndexOf(text, '.', 0);
    if dot.None? then PieceBytes(text) else PieceBytes(text[..dot.value]) + BuildPath(text[dot.value + 1..])
  }

  // ---- Parsing a path ----

  function Even(x: nat): nat { x + x % 2 }

  function KindOf(seg: bv8): Kind {
    var t := seg & 0x1C;
    if t == 0x00 then ClassId
    else if t == 0x04 then InstanceId
    else if t == 0x08 then ElementId
    else if t == 0x0C then ConnectionPoint
    else if t == 0x10 then AttributeId
    else Unknown
  }

  function SegmentFor(seg: bv8, value: nat): seq<Segment> {
    if KindOf(seg) == ElementId then [Element(value)]
    else if KindOf(seg) == Unknown then []
    else [Logical(KindOf(seg), value)]
  }

  // One segment at off: what it adds and where the next begins; none where
  // parsing stops.
  function SegmentAt(d: seq<bv8>, off: nat): (r: Option<(seq<Segment>, nat)>)
    requires off < |d|
    ensures r.Some? ==> off < r.value.1 <= |d|
  {
    var seg := d[off];
    if seg == 0x91 then
      if off + 1 >= |d| then None
      else
        var n := Value(d[off + 1]);
        if off + 2 + n + n % 2 > |d| then None
        else Some(([Symbol(NameOf(d[off + 2..off + 2 + n]))], off + 2 + n + n % 2))
    else if seg & 0xE0 != 0x20 then None
    else
      var format, o := seg & 0x03, off + 1;
      if format == 0x00 then if o >= |d| then None else Some((SegmentFor(seg, Value(d[o])), o + 1))
      else if format == 0x01 then
        if Even(o) + 2 > |d| then None else Some((SegmentFor(seg, U16(d, Even(o))), Even(o) + 2))
      else if format == 0x02 then
        if Even(o) + 4 > |d| then None else Some((SegmentFor(seg, U32(d, Even(o))), Even(o) + 4))
      else None
  }

  datatype Path = Path(segments: seq<Segment>, consumed: nat)

  // How far a path is consumed when the segment at off cannot be read: past the
  // bytes of it that were looked at.
  function StopAt(d: seq<bv8>, off: nat): nat
    requires off < |d|
  {
    var seg := d[off];
    if seg == 0x91 then if off + 1 >= |d| then off + 1 else off + 2
    else if seg & 0xE0 != 0x20 then off
    else if seg & 0x03 == 0x01 || seg & 0x03 == 0x02 then Even(off + 1)
    else off + 1
  }

  function ParsePath(d: seq<bv8>, off: nat): Path
    decreases |d| - off
  {
    if off >= |d| then Path([], off)
    else
      var s := SegmentAt(d, off);
      if s.None? then Path([], StopAt(d, off))
      else
        var rest := ParsePath(d, s.value.1);
        Path(s.value.0 + rest.segments, rest.consumed)
  }

  // ---- There and back ----

  function Elements(ns: seq<nat>): (r: seq<Segment>)
    ensures |r| == |ns| && forall i :: 0 <= i < |ns| ==> r[i] == Element(ns[i])
  {
    seq(|ns|, i requires 0 <= i < |ns| => Element(ns[i]))
  }

  function GroupSegments(gs: seq<seq<nat>>): seq<Segment>
    decreases |gs|
  {
    if gs == [] then [] else Elements(gs[0]) + GroupSegments(gs[1..])
  }

  function Segments(ps: seq<Piece>): seq<Segment>
    decreases |ps|
  {
    if ps == [] then [] else PieceSegments(ps[0]) + Segments(ps[1..])
  }

  function PieceSegments(p: Piece): seq<Segment> {
    (if p.name != [] then [Symbol(p.name)] else []) + GroupSegments(p.groups)
  }

  // A name is read as far as its length byte says.
  lemma SymbolStart(d: seq<bv8>, off: nat, name: string)
    requires IsBytes(name) && Here(d, off, EmitSymbol(name))
    ensures var n := |name| % 256;
      off < |d| && SegmentAt(d, off) == Some(([Symbol(name[..n])], off + 2 + n + n % 2))
  {
    hide Octet, Value;
    var x, n := EmitSymbol(name), |name| % 256;
    assert x[0] == d[off] && x[1] == d[off + 1];
    OctetValue(n);
    assert x[2..2 + n] == NameBytes(name[..n]);
    SliceOfSlice(d, off, off + |x|, 2, 2 + n);
    NameRoundTrip(name[..n]);
  }

  lemma SymbolParsed(d: seq<bv8>, off: nat, name: string)
    requires |name| < 256 && IsBytes(name) && Here(d, off, EmitSymbol(name))
    ensures off < |d| && SegmentAt(d, off) == Some(([Symbol(name)], off + |EmitSymbol(name)|))
  {
    hide SegmentAt;
    SymbolStart(d, off, name);
    assert name[..|name|] == name;
  }

  // The header of a logical segment of each kind, for a value of one byte; the next
  // two values of it announce two and four bytes.
  function Header(kind: Kind): bv8
    requires kind != Unknown
  {
    match kind
    case ClassId => 0x20
    case InstanceId => 0x24
    case ElementId => 0x28
    case ConnectionPoint => 0x2C
    case AttributeId => 0x30
  }

  function EmitLogical(kind: Kind, v: nat): (r: seq<bv8>)
    requires kind != Unknown
  {
    if v <= 0xFF then [Header(kind), Octet(v)]
    else if v <= 0xFFFF then [Header(kind) + 1, 0x00] + Out16(v)
    else [Header(kind) + 2, 0x00] + Out32(v)
  }

  // Whatever its kind and width, a logical segment is read as what it stands for.
  lemma LogicalParsed(d: seq<bv8>, off: nat, kind: Kind, v: nat)
    requires kind != Unknown && v < 0x1_0000_0000 && off % 2 == 0 && Here(d, off, EmitLogical(kind, v))
    ensures off < |d| && SegmentAt(d, off) ==
      Some(([if kind == ElementId then Element(v) else Logical(kind, v)], off + |EmitLogical(kind, v)|))
  {
    hide Octet, Value, U16, U32, Out16, Out32, KindOf, Header;
    var x := EmitLogical(kind, v);
    HeaderRead(kind, if v <= 0xFF then 0 else if v <= 0xFFFF then 1 else 2);
    assert x[0] == d[off] && x[1] == d[off + 1];
    if v <= 0xFF {
      OctetValue(v);
    } else if v <= 0xFFFF {
      SliceOfSlice(d, off, off + 4, 2, 4);
      assert x[2..4] == Out16(v);
      U16Out16(d, off + 2, v);
    } else {
      SliceOfSlice(d, off, off + 6, 2, 6);
      assert x[2..6] == Out32(v);
      U32Out32(d, off + 2, v);
    }
  }

  lemma HeaderRead(kind: Kind, format: bv8)
    requires kind != Unknown && format <= 2
    ensures var b := Header(kind) + format; KindOf(b) == kind && b & 0x03 == format && b & 0xE0 == 0x20 && b != 0x91
  {}

  lemma ElementParsed(d: seq<bv8>, off: nat, v: nat)
    requires v < 0x1_0000_0000 && off % 2 == 0 && Here(d, off, EmitElement(v))
    ensures off < |d| && SegmentAt(d, off) == Some(([Element(v)], off + |EmitElement(v)|))
  {
    hide Octet, Out16, Out32, SegmentAt, Here;
    assert EmitElement(v) == EmitLogical(ElementId, v);
    LogicalParsed(d, off, ElementId, v);
  }

  predicate OtherKind(b: bv8, format: bv8) {
    b == 0x34 + format || b == 0x38 + format || b == 0x3C + format
  }

  lemma OtherHeader(b: bv8, format: bv8)
    requires format <= 2 && OtherKind(b, format)
    ensures KindOf(b) == Unknown && b & 0x03 == format && b & 0xE0 == 0x20 && b != 0x91
  {}

  lemma OtherKindAt(d: seq<bv8>, off: nat, format: bv8, size: nat)
    requires off + size <= |d| && off % 2 == 0 && format <= 2
    requires size == if format == 0 then 2 else if format == 1 then 4 else 6
    requires OtherKind(d[off], format)
    ensures SegmentAt(d, off).Some? && SegmentAt(d, off).value == ([], off + size)
  {
    hide U16, U32, Value, KindOf, OtherKind;
    OtherHeader(d[off], format);
  }

  // A logical segment of a kind that is not known is passed over, in any width.
  lemma OtherKindPassed(d: seq<bv8>, off: nat, format: bv8, size: nat)
    requires off + size <= |d| && off % 2 == 0 && format <= 2
    requires size == if format == 0 then 2 else if format == 1 then 4 else 6
    requires OtherKind(d[off], format)
    ensures ParsePath(d, off) == ParsePath(d, off + size)
  {
    hide SegmentAt, OtherKind;
    OtherKindAt(d, off, format, size);
    var next := ParsePath(d, off + size);
    assert [] + next.segments == next.segments;
  }

  // Parsing from off, the next n bytes give these segments.
  predicate Reads(d: seq<bv8>, off: nat, n: nat, segs: seq<Segment>) {
    off + n <= |d| &&
    ParsePath(d, off) == Path(segs + ParsePath(d, off + n).segments, ParsePath(d, off + n).consumed)
  }

  lemma ReadsNothing(d: seq<bv8>, off: nat)
    requires off <= |d|
    ensures Reads(d, off, 0, [])
  {
    assert [] + ParsePath(d, off).segments == ParsePath(d, off).segments;
  }

  lemma ReadsJoin(d: seq<bv8>, off: nat, m: nat, s: seq<Segment>, n: nat, t: seq<Segment>)
    requires Reads(d, off, m, s) && Reads(d, off + m, n, t)
    ensures Reads(d, off, m + n, s + t)
  {
    hide ParsePath;
    var rest := ParsePath(d, off + m + n).segments;
    assert s + (t + rest) == (s + t) + rest;
  }

  lemma ReadsOne(d: seq<bv8>, off: nat, n: nat, s: Segment)
    requires off < |d| && SegmentAt(d, off) == Some(([s], off + n))
    ensures Reads(d, off, n, [s])
  {
    hide SegmentAt;
  }

  lemma {:induction false} IndicesParsed(d: seq<bv8>, off: nat, ns: seq<nat>)
    requires (forall i :: 0 <= i < |ns| ==> ns[i] < 0x1_0000_0000) && off % 2 == 0 && Here(d, off, EmitIndices(ns))
    ensures |EmitIndices(ns)| % 2 == 0 && Reads(d, off, |EmitIndices(ns)|, Elements(ns))
    decreases |ns|
  {
    hide ParsePath, EmitElement, Here, Reads;
    if ns == [] {
      HereInside(d, off, EmitIndices(ns));
      ReadsNothing(d, off);
      assert Elements(ns) == [];
    } else {
      var head := EmitElement(ns[0]);
      HereSplit(d, off, head, EmitIndices(ns[1..]));
      ElementParsed(d, off, ns[0]);
      ReadsOne(d, off, |head|, Element(ns[0]));
      IndicesParsed(d, off + |head|, ns[1..]);
      ReadsJoin(d, off, |head|, [Element(ns[0])], |EmitIndices(ns[1..])|, Elements(ns[1..]));
      assert Elements(ns) == [Element(ns[0])] + Elements(ns[1..]);
    }
  }

  lemma {:induction false} GroupsParsed(d: seq<bv8>, off: nat, gs: seq<seq<nat>>)
    requires GroupsOk(gs) && off % 2 == 0 && Here(d, off, EmitGroups(gs))
    ensures |EmitGroups(gs)| % 2 == 0 && Reads(d, off, |EmitGroups(gs)|, GroupSegments(gs))
    decreases |gs|
  {
    hide ParsePath, EmitIndices, Here, Reads, Elements;
    if gs == [] {
      HereInside(d, off, EmitGroups(gs));
      ReadsNothing(d, off);
    } else {
      var head := EmitIndices(gs[0]);
      HereSplit(d, off, head, EmitGroups(gs[1..]));
      IndicesParsed(d, off, gs[0]);
      GroupsParsed(d, off + |head|, gs[1..]);
      ReadsJoin(d, off, |head|, Elements(gs[0]), |EmitGroups(gs[1..])|, GroupSegments(gs[1..]));
    }
  }

  // The bytes for a list of pieces.
  function PathOf(ps: seq<Piece>): seq<bv8>
    decreases |ps|
  {
    if ps == [] then [] else EmitPiece(ps[0].name, ps[0].groups) + PathOf(ps[1..])
  }

  lemma PieceParsed(d: seq<bv8>, off: nat, p: Piece)
    requires PieceOk(p) && off % 2 == 0 && Here(d, off, EmitPiece(p.name, p.groups))
    ensures |EmitPiece(p.name, p.groups)| % 2 == 0
    ensures Reads(d, off, |EmitPiece(p.name, p.groups)|, PieceSegments(p))
  {
    hide ParsePath, SegmentAt, EmitSymbol, EmitGroups, Here, Reads, EndsInGroup, GroupsOk, GroupSegments;
    if p.name == [] {
      assert EmitPiece(p.name, p.groups) == EmitGroups(p.groups) && PieceSegments(p) == GroupSegments(p.groups);
      GroupsParsed(d, off, p.groups);
    } else {
      NamedPieceParsed(d, off, p);
    }
  }

  lemma NamedPieceParsed(d: seq<bv8>, off: nat, p: Piece)
    requires PieceOk(p) && p.name != [] && off % 2 == 0 && Here(d, off, EmitPiece(p.name, p.groups))
    ensures |EmitPiece(p.name, p.groups)| % 2 == 0
    ensures Reads(d, off, |EmitPiece(p.name, p.groups)|, PieceSegments(p))
  {
    hide *;
    PieceParts(p);
    var head, tail := EmitSymbol(p.name), EmitGroups(p.groups);
    HereSplit(d, off, head, tail);
    SymbolParsed(d, off, p.name);
    ReadsOne(d, off, |head|, Symbol(p.name));
    GroupsParsed(d, off + |head|, p.groups);
    ReadsJoin(d, off, |head|, [Symbol(p.name)], |tail|, GroupSegments(p.groups));
  }

  lemma PieceParts(p: Piece)
    requires PieceOk(p) && p.name != []
    ensures |p.name| < 256 && IsBytes(p.name) && GroupsOk(p.groups)
    ensures EmitPiece(p.name, p.groups) == EmitSymbol(p.name) + EmitGroups(p.groups)
    ensures |EmitSymbol(p.name)| % 2 == 0
    ensures PieceSegments(p) == [Symbol(p.name)] + GroupSegments(p.groups)
  {
    hide EmitSymbol, EmitGroups, GroupsOk, GroupSegments, EndsInGroup;
  }

  lemma {:induction false} PiecesParsed(d: seq<bv8>, off: nat, ps: seq<Piece>)
    requires (forall i :: 0 <= i < |ps| ==> PieceOk(ps[i])) && off % 2 == 0 && Here(d, off, PathOf(ps))
    ensures Reads(d, off, |PathOf(ps)|, Segments(ps))
    decreases |ps|
  {
    hide ParsePath, EmitPiece, Here, Reads, PieceOk, PieceSegments;
    if ps == [] {
      HereInside(d, off, PathOf(ps));
      ReadsNothing(d, off);
    } else {
      var p := ps[0];
      var head := EmitPiece(p.name, p.groups);
      HereSplit(d, off, head, PathOf(ps[1..]));
      PieceParsed(d, off, p);
      PiecesParsed(d, off + |head|, ps[1..]);
      ReadsJoin(d, off, |head|, PieceSegments(p), |PathOf(ps[1..])|, Segments(ps[1..]));
    }
  }

  // ---- From the text ----

  lemma PieceFree(p: Piece)
    requires Writable(p) && '.' !in p.name
    ensures Free(PieceText(p), '.')
  {
    GroupsFree(p.groups);
  }

  // A piece without a dot in its name is cut off the text as a whole.
  lemma TextStep(ps: seq<Piece>)
    requires AllWritable(ps) && '.' !in ps[0].name
    ensures BuildPath(Text(ps)) ==
      PieceBytes(PieceText(ps[0])) + (if |ps| == 1 then [] else BuildPath(Text(ps[1..])))
  {
    hide PieceBytes, IndexOf, Groups;
    var head := PieceText(ps[0]);
    PieceFree(ps[0]);
    if |ps| == 1 {
      NoIndexOf(head, '.');
    } else {
      var tail, s := Text(ps[1..]), Text(ps);
      FirstIndexOf(head, '.', tail);
      assert s == head + ['.'] + tail && s[..|head|] == head && s[|head| + 1..] == tail;
    }
  }

  lemma {:induction false} TextBuilt(ps: seq<Piece>)
    requires PiecesOk(ps)
    ensures BuildPath(Text(ps)) == PathOf(ps)
    decreases |ps|
  {
    hide SplitBrackets, EmitPiece, BuildPath, EndsInGroup, Text, GroupsOk, IsBytes;
    var p := ps[0];
    TextStep(ps);
    BracketsSplit(p.name, p.groups);
    if |ps| == 1 {
      assert PathOf(ps[1..]) == [];
    } else {
      TextBuilt(ps[1..]);
    }
  }

  lemma {:induction false} IndicesEven(ns: seq<nat>)
    ensures |EmitIndices(ns)| % 2 == 0
    decreases |ns|
  {
    hide Out16, Out32, Octet;
    if ns != [] { IndicesEven(ns[1..]); }
  }

  lemma {:induction false} GroupsEven(gs: seq<seq<nat>>)
    ensures |EmitGroups(gs)| % 2 == 0
    decreases |gs|
  {
    hide EmitIndices;
    if gs != [] {
      IndicesEven(gs[0]);
      GroupsEven(gs[1..]);
    }
  }

  lemma PieceEven(piece: string)
    ensures |PieceBytes(piece)| % 2 == 0
  {
    hide SplitBrackets, EmitGroups, EmitSymbol;
    var (base, groups) := SplitBrackets(piece);
    GroupsEven(groups);
    assert |EmitSymbol(base)| == 2 + |base| + |base| % 2;
  }

  // Whatever the text, its path has even length, as a request needs it.
  lemma {:induction false} PathEven(text: string)
    ensures |BuildPath(text)| % 2 == 0
    decreases |text|
  {
    hide PieceBytes, IndexOf;
    var dot := IndexOf(text, '.', 0);
    PieceEven(if dot.None? then text else text[..dot.value]);
    if dot.Some? { PathEven(text[dot.value + 1..]); }
  }

  // ---- What does not survive ----

  // The first segment that a piece is read as.
  predicate StartsWith(segs: seq<Segment>, base: string) {
    segs != [] && if base != [] then segs[0] == Symbol(base[..|base| % 256]) else segs[0].Element?
  }

  lemma ElementAny(d: seq<bv8>, off: nat, v: nat)
    requires off % 2 == 0 && Here(d, off, EmitElement(v))
    ensures off < |d| && SegmentAt(d, off).Some?
    ensures |SegmentAt(d, off).value.0| == 1 && SegmentAt(d, off).value.0[0].Element?
  {
    hide Octet, Value, U16, U32, Out16, Out32;
    assert d[off] == EmitElement(v)[0];
  }

  lemma ElementStart(d: seq<bv8>, off: nat, ns: seq<nat>)
    requires ns != [] && off % 2 == 0 && Here(d, off, EmitIndices(ns))
    ensures off < |d| && ParsePath(d, off).segments != [] && ParsePath(d, off).segments[0].Element?
  {
    hide EmitElement, SegmentAt, Here;
    HereSplit(d, off, EmitElement(ns[0]), EmitIndices(ns[1..]));
    ElementAny(d, off, ns[0]);
  }

  lemma PieceStart(d: seq<bv8>, off: nat, base: string, groups: seq<seq<nat>>)
    requires IsBytes(base) && off % 2 == 0 && Here(d, off, EmitPiece(base, groups))
    requires base != [] || (groups != [] && groups[0] != [])
    ensures StartsWith(ParsePath(d, off).segments, base)
  {
    hide EmitSymbol, EmitIndices, Here, SegmentAt;
    if base != [] {
      HereSplit(d, off, EmitSymbol(base), EmitGroups(groups));
      SymbolStart(d, off, base);
    } else {
      assert EmitPiece(base, groups) == EmitIndices(groups[0]) + EmitGroups(groups[1..]);
      HereSplit(d, off, EmitIndices(groups[0]), EmitGroups(groups[1..]));
      ElementStart(d, off, groups[0]);
    }
  }

  lemma IndicesNotEmpty(s: string)
    ensures ParseIndices(s).Some? ==> ParseIndices(s).value != []
  {}

  // Splitting takes groups off the end of a text, and leaves it whole if there
  // are none.
  lemma {:induction false} SplitShape(s: string)
    ensures var (base, groups) := SplitBrackets(s);
      base <= s && (if groups == [] then base == s else |base| < |s|) &&
      forall i :: 0 <= i < |groups| ==> groups[i] != []
    decreases |s|
  {
    hide ParseIndices, LastIndexOf;
    if s != [] && s[|s| - 1] == ']' && LastIndexOf(s, '[').Some? {
      var open := LastIndexOf(s, '[').value;
      IndicesNotEmpty(s[open + 1..|s| - 1]);
      SplitShape(s[..open]);
    }
  }

  lemma PrefixFree(a: string, b: string)
    requires a <= b
    ensures (IsBytes(b) ==> IsBytes(a)) && ('.' !in b ==> '.' !in a)
  {
    forall c | c in a
      ensures c in b
    {
      var i :| 0 <= i < |a| && a[i] == c;
      assert b[i] == c;
    }
  }

  predicate DotFree(segs: seq<Segment>) {
    segs == [] || segs[0].Element? || (segs[0].Symbol? && '.' !in segs[0].name)
  }

  // Whatever the text, the first name that is read has no dot.
  lemma {:induction false} FirstDotFree(d: seq<bv8>, off: nat, t: string)
    requires IsBytes(t) && off % 2 == 0 && Here(d, off, BuildPath(t)) && off + |BuildPath(t)| == |d|
    ensures DotFree(ParsePath(d, off).segments)
    decreases |t|
  {
    hide SplitBrackets, EmitPiece, ParsePath, Here, IndexOf;
    var dot := IndexOf(t, '.', 0);
    var piece := if dot.None? then t else t[..dot.value];
    var (base, groups) := SplitBrackets(piece);
    PrefixFree(piece, t);
    SplitShape(piece);
    PrefixFree(base, piece);
    assert PieceBytes(piece) + [] == PieceBytes(piece);
    HereSplit(d, off, PieceBytes(piece), if dot.None? then [] else BuildPath(t[dot.value + 1..]));
    if piece != [] {
      PieceStart(d, off, base, groups);
      PrefixFree(base[..|base| % 256], base);
    } else {
      NothingBuilt();
      if dot.None? {
        NothingParsed(d);
      } else {
        FirstDotFree(d, off, t[dot.value + 1..]);
      }
    }
  }

  lemma NothingBuilt()
    ensures PieceBytes("") == []
  {
    assert SplitBrackets("") == ("", []);
  }

  lemma NothingParsed(d: seq<bv8>)
    ensures ParsePath(d, |d|) == Path([], |d|)
  {}

  // A name that does not survive is not read back as the first segment.
  lemma BadFirst(d: seq<bv8>, off: nat, ps: seq<Piece>)
    requires AllWritable(ps) && !PieceOk(ps[0]) && off % 2 == 0
    requires Here(d, off, BuildPath(Text(ps))) && off + |BuildPath(Text(ps))| == |d|
    ensures var segs := ParsePath(d, off).segments; segs == [] || segs[0] != Symbol(ps[0].name)
  {
    hide SplitBrackets, ParsePath, BuildPath, Here, Groups, EmitPiece, EndsInGroup, GroupsOk, IsBytes, Text;
    var name, gs := ps[0].name, ps[0].groups;
    if '.' in name {
      TextIsBytes(ps);
      FirstDotFree(d, off, Text(ps));
    } else {
      var (base, groups) := SplitBrackets(name);
      TextStep(ps);
      GroupsSplit(name, gs);
      HereSplit(d, off, PieceBytes(PieceText(ps[0])), if |ps| == 1 then [] else BuildPath(Text(ps[1..])));
      SplitShape(name);
      PrefixFree(base, name);
      WholeName(name);
      assert name != [] by { NotEmpty(ps[0]); }
      PieceStart(d, off, base, groups + gs);
    }
  }

  lemma NotEmpty(p: Piece)
    requires Writable(p) && !PieceOk(p)
    ensures p.name != []
  {}

  lemma BytesJoin(a: string, b: string)
    requires IsBytes(a) && IsBytes(b)
    ensures IsBytes(a + b)
  {}

  lemma {:induction false} DecimalBytes(n: nat)
    ensures IsBytes(Decimal(n))
    decreases n
  {
    if n >= 10 { DecimalBytes(n / 10); }
  }

  lemma {:induction false} IndicesBytes(ns: seq<nat>)
    requires ns != []
    ensures IsBytes(Indices(ns))
    decreases |ns|
  {
    DecimalBytes(ns[0]);
    if |ns| > 1 { IndicesBytes(ns[1..]); }
  }

  lemma {:induction false} GroupsBytes(gs: seq<seq<nat>>)
    requires GroupsOk(gs)
    ensures IsBytes(Groups(gs))
    decreases |gs|
  {
    if gs != [] {
      GroupsBytes(gs[..|gs| - 1]);
      IndicesBytes(gs[|gs| - 1]);
    }
  }

  lemma {:induction false} TextIsBytes(ps: seq<Piece>)
    requires AllWritable(ps)
    ensures IsBytes(Text(ps))
    decreases |ps|
  {
    hide IsBytes, Groups, GroupsOk;
    GroupsBytes(ps[0].groups);
    BytesJoin(ps[0].name, Groups(ps[0].groups));
    if |ps| > 1 {
      TextIsBytes(ps[1..]);
      DotIsByte();
      BytesJoin(PieceText(ps[0]), ".");
      BytesJoin(PieceText(ps[0]) + ".", Text(ps[1..]));
    }
  }

  lemma DotIsByte()
    ensures IsBytes(".")
  {}

  // From the first name on that does not survive, the segments are others.
  lemma {:induction false} BadRead(d: seq<bv8>, off: nat, ps: seq<Piece>)
    requires AllWritable(ps) && !PiecesOk(ps) && off % 2 == 0
    requires Here(d, off, BuildPath(Text(ps))) && off + |BuildPath(Text(ps))| == |d|
    ensures ParsePath(d, off).segments != Segments(ps)
    decreases |ps|
  {
    hide ParsePath, BuildPath, Here, Text, PieceOk, Writable, EmitPiece, SplitBrackets, PieceBytes;
    var p := ps[0];
    if !PieceOk(p) {
      BadFirst(d, off, ps);
      SegmentsStart(ps);
    } else {
      var head := EmitPiece(p.name, p.groups);
      GoodPiece(p);
      TextStep(ps);
      assert |ps| > 1 by { OnlyOne(ps); }
      HereSplit(d, off, head, BuildPath(Text(ps[1..])));
      PieceParsed(d, off, p);
      TailBad(ps);
      BadRead(d, off + |head|, ps[1..]);
      SegmentsJoin(PieceSegments(p), ParsePath(d, off + |head|).segments, Segments(ps[1..]));
    }
  }

  lemma OnlyOne(ps: seq<Piece>)
    requires ps != [] && PieceOk(ps[0]) && !PiecesOk(ps)
    ensures |ps| > 1
  {
    hide PieceOk;
  }

  lemma TailBad(ps: seq<Piece>)
    requires AllWritable(ps) && |ps| > 1 && PieceOk(ps[0]) && !PiecesOk(ps)
    ensures AllWritable(ps[1..]) && !PiecesOk(ps[1..])
  {
    hide PieceOk, Writable;
    var i :| 0 <= i < |ps| && !PieceOk(ps[i]);
    assert ps[1..][i - 1] == ps[i];
  }

  lemma GoodPiece(p: Piece)
    requires PieceOk(p)
    ensures Writable(p) && '.' !in p.name && PieceBytes(PieceText(p)) == EmitPiece(p.name, p.groups)
  {
    hide SplitBrackets, EmitPiece, EndsInGroup, Groups, GroupsOk, IsBytes;
    BracketsSplit(p.name, p.groups);
  }

  lemma SegmentsStart(ps: seq<Piece>)
    requires ps != [] && Writable(ps[0]) && !PieceOk(ps[0])
    ensures Segments(ps) != [] && Segments(ps)[0] == Symbol(ps[0].name)
  {
    hide GroupSegments;
  }

  lemma SegmentsJoin(a: seq<Segment>, b: seq<Segment>, c: seq<Segment>)
    ensures a + b == a + c ==> b == c
  {
    assert (a + b)[|a|..] == b && (a + c)[|a|..] == c;
  }

  // Rendered as text, built into a path and parsed, names and indices come back
  // in order with every byte of the path consumed, exactly if no name is longer
  // than its length byte can say, holds a dot or ends in a group itself.
  lemma PathRoundTrip(ps: seq<Piece>)
    requires AllWritable(ps)
    ensures ParsePath(BuildPath(Text(ps)), 0) == Path(Segments(ps), |BuildPath(Text(ps))|) <==> PiecesOk(ps)
  {
    hide BuildPath, Text, PieceOk, PathOf, Segments, Writable;
    var d := BuildPath(Text(ps));
    assert d[0..|d|] == d;
    if PiecesOk(ps) {
      TextBuilt(ps);
      PiecesParsed(d, 0, ps);
      assert Segments(ps) + [] == Segments(ps);
    } else {
      BadRead(d, 0, ps);
    }
  }

  // A segment of any other kind ends what is read, and is not consumed.
  lemma ForeignStops(ps: seq<Piece>, b: bv8, rest: seq<bv8>)
    requires PiecesOk(ps) && AllWritable(ps) && b != 0x91 && b & 0xE0 != 0x20
    ensures
      var d := BuildPath(Text(ps));
      ParsePath(d + [b] + rest, 0) == Path(Segments(ps), |d|)
  {
    hide BuildPath, Text, PieceOk, PathOf, Segments, Writable;
    var d := BuildPath(Text(ps));
    var x := d + [b] + rest;
    TextBuilt(ps);
    assert x[0..|d|] == d && x[|d|] == b;
    PiecesParsed(x, 0, ps);
    assert ParsePath(x, |d|) == Path([], |d|);
    assert Segments(ps) + [] == Segments(ps);
  }

  // ---- How far a path is consumed ----

  // A logical segment whose value stands at the next even offset.
  predicate WideHeader(b: bv8) { b & 0xE0 == 0x20 && (b & 0x03 == 0x01 || b & 0x03 == 0x02) }

  predicate ReadThrough(d: seq<bv8>, off: nat, end: nat)
    requires end <= |d|
    decreases end - off
  {
    off == end || (off < end && SegmentAt(d, off).Some? && ReadThrough(d, SegmentAt(d, off).value.1, end))
  }

  lemma EvenNext(d: seq<bv8>, off: nat)
    requires off < |d| && off % 2 == 0 && SegmentAt(d, off).Some?
    ensures SegmentAt(d, off).value.1 % 2 == 0
  {
    hide SegmentFor, U16, U32, Value;
  }

  lemma StopExact(d: seq<bv8>, off: nat)
    requires off < |d| && off % 2 == 0 && SegmentAt(d, off).None?
    ensures StopAt(d, off) <= |d| + 1
    ensures StopAt(d, off) > |d| <==> off + 1 == |d| && WideHeader(d[off])
  {
    hide SegmentFor, U16, U32, Value;
  }

  // What is said to be consumed lies inside the path, unless its length is odd and
  // all of it was read up to a last byte that begins a wide logical segment; then
  // it is one byte more.
  lemma {:induction false} ConsumedExact(d: seq<bv8>, off: nat)
    requires off <= |d| && off % 2 == 0
    ensures ParsePath(d, off).consumed <= |d| + 1
    ensures ParsePath(d, off).consumed > |d| <==>
      |d| % 2 == 1 && WideHeader(d[|d| - 1]) && ReadThrough(d, off, |d| - 1)
    decreases |d| - off
  {
    hide SegmentAt, StopAt, WideHeader;
    if off < |d| {
      var s := SegmentAt(d, off);
      if s.Some? {
        EvenNext(d, off);
        ConsumedExact(d, s.value.1);
      } else {
        StopExact(d, off);
      }
    }
  }

  // So with the paths that requests carry, whose length is even, it never is.
  lemma EvenConsumed(d: seq<bv8>)
    requires |d| % 2 == 0
    ensures ParsePath(d, 0).consumed <= |d|
  {
    ConsumedExact(d, 0);
  }

  lemma OddConsumed()
    ensures ParsePath([0x29], 0) == Path([], 2)
  {
    assert StopAt([0x29], 0) == 2;
  }

  // ---- The loops ----

  method SplitGroups(s: string) returns (base: string, groups: seq<seq<nat>>)
    ensures (base, groups) == SplitBrackets(s)
  {
    hide ParseIndices, LastIndexOf;
    base, groups := s, [];
    assert SplitBrackets(s).1 + [] == SplitBrackets(s).1;
    while base != [] && base[|base| - 1] == ']'
      invariant (SplitBrackets(base).0, SplitBrackets(base).1 + groups) == SplitBrackets(s)
      decreases |base|
    {
      var open := LastIndexOf(base, '[');
      if open.None? { break; }
      var indices := ParseIndices(base[open.value + 1..|base| - 1]);
      if indices.None? { break; }
      ghost var front := SplitBrackets(base[..open.value]);
      assert front.1 + [indices.value] + groups == front.1 + ([indices.value] + groups);
      base, groups := base[..open.value], [indices.value] + groups;
    }
    assert [] + groups == groups;
  }

  method AppendIndices(path: seq<bv8>, ns: seq<nat>) returns (r: seq<bv8>)
    ensures r == path + EmitIndices(ns)
  {
    hide EmitElement;
    r := path;
    assert ns[0..] == ns;
    for k := 0 to |ns|
      invariant r + EmitIndices(ns[k..]) == path + EmitIndices(ns)
    {
      assert ns[k..][0] == ns[k] && ns[k..][1..] == ns[k + 1..];
      assert (r + EmitElement(ns[k])) + EmitIndices(ns[k + 1..]) == r + (EmitElement(ns[k]) + EmitIndices(ns[k + 1..]));
      r := r + EmitElement(ns[k]);
    }
    assert ns[|ns|..] == [];
    assert r + [] == r;
  }

  method AppendGroups(path: seq<bv8>, gs: seq<seq<nat>>) returns (r: seq<bv8>)
    ensures r == path + EmitGroups(gs)
  {
    hide EmitIndices;
    r := path;
    assert gs[0..] == gs;
    for k := 0 to |gs|
      invariant r + EmitGroups(gs[k..]) == path + EmitGroups(gs)
    {
      assert gs[k..][0] == gs[k] && gs[k..][1..] == gs[k + 1..];
      assert (r + EmitIndices(gs[k])) + EmitGroups(gs[k + 1..]) == r + (EmitIndices(gs[k]) + EmitGroups(gs[k + 1..]));
      r := AppendIndices(r, gs[k]);
    }
    assert gs[|gs|..] == [];
    assert r + [] == r;
  }

  method AppendPiece(path: seq<bv8>, piece: string) returns (r: seq<bv8>)
    ensures r == path + PieceBytes(piece)
  {
    hide SplitBrackets, EmitGroups, EmitSymbol;
    var base, groups := SplitGroups(piece);
    r := path;
    if base != [] { r := r + EmitSymbol(base); }
    r := AppendGroups(r, groups);
  }

  method BuildSymbolicPath(name: string) returns (path: seq<bv8>)
    ensures path == BuildPath(name)
  {
    hide PieceBytes, IndexOf;
    path := [];
    var rest := name;
    while true
      invariant path + BuildPath(rest) == BuildPath(name)
      decreases |rest|
    {
      var dot := IndexOf(rest, '.', 0);
      var piece := if dot.None? then rest else rest[..dot.value];
      ghost var before := path;
      path := AppendPiece(path, piece);
      if dot.None? { return; }
      rest := rest[dot.value + 1..];
      assert path + BuildPath(rest) == before + (PieceBytes(piece) + BuildPath(rest));
    }
  }

  method ParsePathFrom(d: seq<bv8>) returns (p: Path)
    ensures p == ParsePath(d, 0)
  {
    hide SegmentAt, StopAt;
    var segments: seq<Segment>, offset := [], 0;
    while offset < |d|
      invariant Path(segments + ParsePath(d, offset).segments, ParsePath(d, offset).consumed) == ParsePath(d, 0)
      decreases |d| - offset
    {
      var s := SegmentAt(d, offset);
      if s.None? {
        assert segments + [] == segments;
        return Path(segments, StopAt(d, offset));
      }
      ghost var rest := ParsePath(d, s.value.1).segments;
      assert segments + (s.value.0 + rest) == (segments + s.value.0) + rest;
      segments, offset := segments + s.value.0, s.value.1;
    }
    assert segments + [] == segments;
    return Path(segments, offset);
  }
}
