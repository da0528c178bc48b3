// A template's definition as one block of bytes, read in chunks, and taken apart
// again by the client.
module TemplateRead {
  import opened Options
  import opened Sequences
  import opened TagServices
  import opened Fragments
  import opened FrameCodec

  datatype Field = Field(dataType: nat, info: nat, offset: nat, name: seq<bv8>)

  datatype Definition = Definition(name: seq<bv8>, fields: seq<Field>)

  // ---- The block ----

  function FieldBytes(f: Field): (r: seq<bv8>)
    ensures |r| == 8
  {
    Out32(f.dataType * 0x1_0000 + f.info) + Out32(f.offset)
  }

  function FieldsBytes(fs: seq<Field>): (r: seq<bv8>)
    ensures |r| == 8 * |fs|
    decreases |fs|
  {
    if fs == [] then [] else FieldBytes(fs[0]) + FieldsBytes(fs[1..])
  }

  function Names(fs: seq<Field>): (r: seq<seq<bv8>>)
    ensures |r| == |fs| && forall i :: 0 <= i < |fs| ==> r[i] == fs[i].name
  {
    seq(|fs|, i requires 0 <= i < |fs| => fs[i].name)
  }

  // Each name followed by a zero byte.
  function Terminated(ns: seq<seq<bv8>>): seq<bv8>
    decreases |ns|
  {
    if ns == [] then [] else ns[0] + [0] + Terminated(ns[1..])
  }

  // The suffix ";0" stands for a checksum.
  function FullName(d: Definition): seq<bv8> { d.name + [0x3B, 0x30] }

  function Body(d: Definition): seq<bv8> { FieldsBytes(d.fields) + Terminated([FullName(d)] + Names(d.fields)) }

  function Padded(n: nat): nat { (n + 3) / 4 * 4 }

  function Block(d: Definition): (r: seq<bv8>)
    ensures |r| == Padded(|Body(d)|)
  {
    Body(d) + Zeros8(Padded(|Body(d)|) - |Body(d)|)
  }

  // The size in words that the template advertises, counted as the clients count
  // it: with a header of twenty-one bytes that is not part of the block.
  function NamesSize(ns: seq<seq<bv8>>): nat
    decreases |ns|
  {
    if ns == [] then 0 else |ns[0]| + 1 + NamesSize(ns[1..])
  }

  function DefinitionSize(d: Definition): nat {
    var data := |d.fields| * 8 + (|d.name| + 2 + 1) + NamesSize(Names(d.fields));
    (21 + (data + 3) / 4 * 4 + 3) / 4
  }

  // ---- One chunk ----

  function ReadChunk(d: Definition, req: seq<bv8>): Reply {
    if |req| < 6 then Fail(0x13, None)
    else
      var full, off, wanted := Block(d), U32(req, 0), U16(req, 4);
      if off >= |full| then Fail(0xFF, Some(0x2105))
      else
        var n := Least(Least(|full| - off, wanted), 480);
        if off + n < |full| then More(full[off..off + n]) else Done(full[off..off + n])
  }

  // A chunk is refused from the end of the block on; before it, it has what is asked
  // for and there, but no more than 480 bytes, and is the last if it ends the block.
  lemma ChunkExact(d: Definition, off: nat, wanted: nat)
    requires off < 0x1_0000_0000 && wanted < 0x1_0000
    ensures
      var r, left := ReadChunk(d, Out32(off) + Out16(wanted)), |Block(d)| - off;
      if left <= 0 then r == Fail(0xFF, Some(0x2105))
      else
        && !r.Fail? && |r.data| == Least(Least(left, wanted), 480)
        && r.data <= Block(d)[off..] && (r.Done? <==> |r.data| == left)
  {
    hide U32, U16, Out32, Out16, Block;
    var req := Out32(off) + Out16(wanted);
    assert req[0..4] == Out32(off) && req[4..6] == Out16(wanted);
    U32Out32(req, 0, off);
    U16Out16(req, 4, wanted);
  }

  // ---- The client's side ----

  function ParseFields(b: seq<bv8>, p: nat, n: nat): seq<Field>
    decreases n
  {
    if n == 0 || p + 8 > |b| then []
    else
      var typeAndInfo := U32(b, p);
      [Field(typeAndInfo / 0x1_0000, typeAndInfo % 0x1_0000, U32(b, p + 4), [])] + ParseFields(b, p + 8, n - 1)
  }

  function EndOfName(b: seq<bv8>, p: nat): (e: nat)
    requires p <= |b|
    ensures p <= e <= |b| && (e < |b| ==> b[e] == 0) && forall i :: p <= i < e ==> b[i] != 0
    decreases |b| - p
  {
    if p == |b| || b[p] == 0 then p else EndOfName(b, p + 1)
  }

  function SplitNames(b: seq<bv8>, p: nat): seq<seq<bv8>>
    decreases |b| - p
  {
    if p >= |b| then []
    else
      var e := EndOfName(b, p);
      [b[p..e]] + SplitNames(b, e + 1)
  }

  // The first name is the template's, the others go to the members in order.
  function Named(fs: seq<Field>, names: seq<seq<bv8>>): (r: Definition)
  {
    Definition(if names == [] then [] else names[0],
               seq(|fs|, i requires 0 <= i < |fs| => if i + 1 < |names| then fs[i].(name := names[i + 1]) else fs[i]))
  }

  function ParseBlock(b: seq<bv8>, count: nat): Definition {
    var fs := ParseFields(b, 0, count);
    Named(fs, SplitNames(b, 8 * |fs|))
  }

  // ---- Names survive ----

  predicate NoZero(s: seq<bv8>) { forall i :: 0 <= i < |s| ==> s[i] != 0 }

  predicate NoZeros(ns: seq<seq<bv8>>) { forall i :: 0 <= i < |ns| ==> NoZero(ns[i]) }

  lemma NameEnds(b: seq<bv8>, p: nat, name: seq<bv8>)
    requires NoZero(name) && p + |name| < |b| && b[p..p + |name|] == name && b[p + |name|] == 0
    ensures EndOfName(b, p) == p + |name|
  {
    assert forall i :: p <= i < p + |name| ==> b[i] == b[p..p + |name|][i - p];
  }

  lemma {:induction false} NamesSplit(b: seq<bv8>, p: nat, ns: seq<seq<bv8>>, rest: seq<bv8>)
    requires p <= |b| && b[p..] == Terminated(ns) + rest && NoZeros(ns)
    ensures ns <= SplitNames(b, p)
    decreases |ns|
  {
    hide EndOfName, NoZero;
    if ns != [] {
      var n := |ns[0]|;
      FirstName(b, p, ns[0], Terminated(ns[1..]), rest);
      NameEnds(b, p, ns[0]);
      NamesSplit(b, p + n + 1, ns[1..], rest);
      assert SplitNames(b, p) == [ns[0]] + SplitNames(b, p + n + 1);
      PrefixCons(ns, SplitNames(b, p + n + 1));
    }
  }

  lemma PrefixCons(ns: seq<seq<bv8>>, more: seq<seq<bv8>>)
    requires ns != [] && ns[1..] <= more
    ensures ns <= [ns[0]] + more
  {}

  lemma FirstName(b: seq<bv8>, p: nat, name: seq<bv8>, more: seq<bv8>, rest: seq<bv8>)
    requires p <= |b| && b[p..] == name + [0] + more + rest
    ensures p + |name| < |b| && b[p..p + |name|] == name && b[p + |name|] == 0
    ensures b[p + |name| + 1..] == more + rest
  {
    var n, tail := |name|, b[p..];
    assert tail == name + ([0] + more + rest);
    assert b[p..p + n] == tail[..n] && b[p + n] == tail[n];
    assert b[p + n + 1..] == tail[n + 1..] == more + rest;
  }

  predicate FieldOk(f: Field) {
    f.dataType < 0x1_0000 && f.info < 0x1_0000 && f.offset < 0x1_0000_0000 && NoZero(f.name)
  }

  predicate FieldsOk(fs: seq<Field>) { forall i :: 0 <= i < |fs| ==> FieldOk(fs[i]) }

  function Nameless(fs: seq<Field>): (r: seq<Field>)
    ensures |r| == |fs| && forall i :: 0 <= i < |fs| ==> r[i] == fs[i].(name := [])
  {
    seq(|fs|, i requires 0 <= i < |fs| => fs[i].(name := []))
  }

  lemma {:induction false} FieldsParsed(b: seq<bv8>, p: nat, fs: seq<Field>, rest: seq<bv8>)
    requires p <= |b| && b[p..] == FieldsBytes(fs) + rest && FieldsOk(fs)
    ensures ParseFields(b, p, |fs|) == Nameless(fs)
    decreases |fs|
  {
    hide U32, Out32;
    if fs != [] {
      var f, tail := fs[0], b[p..];
      assert tail == FieldBytes(f) + (FieldsBytes(fs[1..]) + rest);
      assert b[p..p + 4] == tail[..4] == Out32(f.dataType * 0x1_0000 + f.info);
      assert b[p + 4..p + 8] == tail[4..8] == Out32(f.offset);
      U32Out32(b, p, f.dataType * 0x1_0000 + f.info);
      U32Out32(b, p + 4, f.offset);
      assert b[p + 8..] == tail[8..] == FieldsBytes(fs[1..]) + rest;
      FieldsParsed(b, p + 8, fs[1..], rest);
      assert Nameless(fs) == [f.(name := [])] + Nameless(fs[1..]);
    }
  }

  predicate DefinitionOk(d: Definition) { NoZero(d.name) && FieldsOk(d.fields) && |Block(d)| < 0x1_0000_0000 }

  lemma NoZeroNames(d: Definition)
    requires DefinitionOk(d)
    ensures NoZeros([FullName(d)] + Names(d.fields))
  {
    hide FieldOk, Block;
    var ns := [FullName(d)] + Names(d.fields);
    forall i | 0 <= i < |ns|
      ensures NoZero(ns[i])
    {
      if i > 0 { FieldNameOk(d.fields, i - 1); }
    }
  }

  lemma FieldNameOk(fs: seq<Field>, i: nat)
    requires FieldsOk(fs) && i < |fs|
    ensures NoZero(fs[i].name)
  {}

  // From the whole block the client recovers every member's type, information,
  // offset and name, and the template's name with its suffix.
  lemma BlockParsed(d: Definition)
    requires DefinitionOk(d)
    ensures ParseBlock(Block(d), |d.fields|) == Definition(FullName(d), d.fields)
  {
    hide FieldsOk, FieldBytes, FullName;
    var b, ns := Block(d), [FullName(d)] + Names(d.fields);
    var zeros := Zeros8(Padded(|Body(d)|) - |Body(d)|);
    assert b[0..] == b == FieldsBytes(d.fields) + (Terminated(ns) + zeros);
    FieldsParsed(b, 0, d.fields, Terminated(ns) + zeros);
    assert b[8 * |d.fields|..] == Terminated(ns) + zeros;
    NoZeroNames(d);
    NamesSplit(b, 8 * |d.fields|, ns, zeros);
    NamedBack(d.fields, FullName(d), SplitNames(b, 8 * |d.fields|));
  }

  lemma NamedBack(fs: seq<Field>, name: seq<bv8>, names: seq<seq<bv8>>)
    requires [name] + Names(fs) <= names
    ensures Named(Nameless(fs), names) == Definition(name, fs)
  {
    var r := Named(Nameless(fs), names);
    assert names[0] == name;
    forall i | 0 <= i < |fs|
      ensures r.fields[i] == fs[i]
    {
      assert names[i + 1] == ([name] + Names(fs))[i + 1] == fs[i].name;
    }
  }

  // ---- The advertised size ----

  lemma {:induction false} TerminatedSize(ns: seq<seq<bv8>>)
    ensures |Terminated(ns)| == NamesSize(ns)
    decreases |ns|
  {
    if ns != [] { TerminatedSize(ns[1..]); }
  }

  // What a client asks for, in its way of counting, is the block and one byte more.
  lemma AsksForAll(d: Definition)
    ensures DefinitionSize(d) * 4 - 23 == |Block(d)| + 1
  {
    var ns := [FullName(d)] + Names(d.fields);
    TerminatedSize(ns);
    assert ns[1..] == Names(d.fields);
  }

  // ---- The loops ----

  method BlockSize(d: Definition) returns (total: nat)
    ensures total == |Block(d)| && total >= |Body(d)|
  {
    hide FieldBytes, FullName, Padded;
    AsksForAll(d);
    total := |d.fields| * 8 + |FullName(d)| + 1;
    ghost var ns := [FullName(d)] + Names(d.fields);
    assert ns[1..] == Names(d.fields) && Names(d.fields)[0..] == Names(d.fields);
    TerminatedSize(ns);
    for i := 0 to |d.fields|
      invariant total + NamesSize(Names(d.fields)[i..]) == |Body(d)|
    {
      assert Names(d.fields)[i..][1..] == Names(d.fields)[i + 1..];
      total := total + |d.fields[i].name| + 1;
    }
    assert Names(d.fields)[|d.fields|..] == [];
    PaddedIs(total);
    total := Padded(total);
  }

  predicate ZeroFrom(b: seq<bv8>, off: nat) { forall j :: off <= j < |b| ==> b[j] == 0 }

  method WriteEntries(data: array<bv8>, fs: seq<Field>) returns (off: nat)
    requires 8 * |fs| <= data.Length && ZeroFrom(data[..], 0)
    modifies data
    ensures off == 8 * |fs| && data[..off] == FieldsBytes(fs) && ZeroFrom(data[..], off)
  {
    hide FieldBytes;
    off := 0;
    assert fs[0..] == fs && data[..0] + FieldsBytes(fs) == FieldsBytes(fs);
    for i := 0 to |fs|
      invariant off == 8 * i
      invariant data[..off] + FieldsBytes(fs[i..]) == FieldsBytes(fs)
      invariant forall j :: off <= j < data.Length ==> data[j] == 0
    {
      assert fs[i..][0] == fs[i] && fs[i..][1..] == fs[i + 1..];
      ghost var before := data[..off];
      off := Put(data, off, FieldBytes(fs[i]));
      assert data[..off] + FieldsBytes(fs[i + 1..]) == before + (FieldBytes(fs[i]) + FieldsBytes(fs[i + 1..]));
    }
    assert fs[|fs|..] == [];
  }

  // A name and its zero byte, which is there already.
  method WriteName(data: array<bv8>, start: nat, name: seq<bv8>) returns (off: nat)
    requires start + |name| + 1 <= data.Length && ZeroFrom(data[..], start)
    modifies data
    ensures off == start + |name| + 1 && data[..off] == old(data[..start]) + (name + [0]) && ZeroFrom(data[..], off)
  {
    off := Put(data, start, name);
    assert data[off] == old(data[off]) == 0;
    off := off + 1;
    assert data[..off] == data[..off - 1] + [0];
  }

  lemma TerminatedFits(ns: seq<seq<bv8>>, i: nat)
    requires i < |ns|
    ensures Terminated(ns[i..]) == (ns[i] + [0]) + Terminated(ns[i + 1..])
  {
    assert ns[i..][0] == ns[i] && ns[i..][1..] == ns[i + 1..];
  }

  method WriteNames(data: array<bv8>, start: nat, ns: seq<seq<bv8>>) returns (off: nat)
    requires start + |Terminated(ns)| <= data.Length && ZeroFrom(data[..], start)
    modifies data
    ensures off == start + |Terminated(ns)| && data[..off] == old(data[..start]) + Terminated(ns) &&
      ZeroFrom(data[..], off)
  {
    hide ZeroFrom, Terminated;
    off := start;
    ghost var all := old(data[..start]) + Terminated(ns);
    assert ns[0..] == ns;
    for i := 0 to |ns|
      invariant off + |Terminated(ns[i..])| == |all| <= data.Length
      invariant data[..off] + Terminated(ns[i..]) == all && ZeroFrom(data[..], off)
    {
      TerminatedFits(ns, i);
      ghost var before := data[..off];
      off := WriteName(data, off, ns[i]);
      assert data[..off] + Terminated(ns[i + 1..]) == before + ((ns[i] + [0]) + Terminated(ns[i + 1..]));
    }
    NoNames(ns);
  }

  lemma NoNames(ns: seq<seq<bv8>>)
    ensures Terminated(ns[|ns|..]) == []
  {}

  // Fills a block of zeros from the front: member entries, template name, member
  // names; what is left over is the padding.
  method BuildDefinition(d: Definition) returns (data: array<bv8>)
    ensures data[..] == Block(d)
  {
    hide FieldBytes, FieldsBytes, FullName, Padded, Block, Body, Terminated;
    var total := BlockSize(d);
    data := new bv8[total](_ => 0);
    NamesFit(d);
    var off := WriteEntries(data, d.fields);
    off := WriteName(data, off, FullName(d));
    off := WriteNames(data, off, Names(d.fields));
    assert data[..off] == Body(d);
    Filled(d, data[..], off);
  }

  lemma Filled(d: Definition, b: seq<bv8>, off: nat)
    requires off <= |b| == |Block(d)| && b[..off] == Body(d) && ZeroFrom(b, off)
    ensures b == Block(d)
  {
    hide Body;
  }

  lemma NamesFit(d: Definition)
    ensures Body(d) == FieldsBytes(d.fields) + (FullName(d) + [0]) + Terminated(Names(d.fields))
  {
    hide FieldBytes, FullName;
    var ns := [FullName(d)] + Names(d.fields);
    assert ns[1..] == Names(d.fields);
  }

  lemma PaddedIs(n: nat)
    ensures n <= Padded(n) < n + 4
  {}

  lemma ChunkRead(d: Definition, off: nat, wanted: nat)
    requires off < |Block(d)| < 0x1_0000_0000 && wanted < 0x1_0000
    ensures var n := Least(Least(|Block(d)| - off, wanted), 480);
      ReadChunk(d, Out32(off) + Out16(wanted)) ==
      if off + n < |Block(d)| then More(Block(d)[off..off + n]) else Done(Block(d)[off..off + n])
  {
    hide U16, U32, Out16, Out32, Block;
    var req := Out32(off) + Out16(wanted);
    assert req[0..4] == Out32(off) && req[4..6] == Out16(wanted);
    U32Out32(req, 0, off);
    U16Out16(req, 4, wanted);
  }

  // The client's loop: ends, and has read the definition as it is.
  method ReadTemplate(d: Definition) returns (info: Definition, replies: nat)
    requires DefinitionOk(d)
    ensures info == Definition(FullName(d), d.fields)
    ensures replies == (|Block(d)| + 479) / 480
  {
    hide ReadChunk, Block, ParseBlock, FullName, DefinitionSize, Out16, Out32;
    AsksForAll(d);
    var readSize: int := DefinitionSize(d) * 4 - 23;
    if readSize <= 0 { readSize := 256; }
    var all: seq<bv8> := [];
    ghost var full := Block(d);
    BlockNotEmpty(d);
    replies := 0;
    while true
      invariant |all| < |full| && all == full[..|all|] && |all| == 480 * replies
      decreases |full| - |all|
    {
      var remaining := readSize - |all|;
      if remaining <= 0 { break; }
      var wanted := Least(remaining, 0xFFFF);
      ChunkRead(d, |all|, wanted);
      var reply := ReadChunk(d, Out32(|all|) + Out16(wanted));
      if reply.Fail? { break; }
      all, replies := all + reply.data, replies + 1;
      if reply.Done? { break; }
    }
    assert all == full;
    BlockParsed(d);
    info := ParseBlock(all, |d.fields|);
  }

  lemma BlockNotEmpty(d: Definition)
    ensures |Block(d)| > 0
  {}
}
