// Several requests in one packet: packing and splitting, one reply for each, and
// the bound on how deep packets may stand inside packets.
module MultiService {
  import opened Numbers
  import opened Options
  import opened TagServices
  import opened Walker
  import opened Sequences
  import opened FrameCodec

  datatype Request = Request(service: bv8, path: seq<bv8>, data: seq<bv8>)

  datatype Response = Response(service: bv8, status: bv8, extra: seq<nat>, data: seq<bv8>)

  function Replied(service: bv8): bv8 { service | 0x80 }

  function ErrorResponse(service: bv8, status: bv8): Response { Response(Replied(service), status, [], []) }

  // ---- One request, one response ----

  function ParseMr(b: seq<bv8>): (r: Option<Request>)
    ensures r.Some? ==> |r.value.data| + 2 <= |b|
  {
    if |b| < 2 then None
    else
      var n := 2 * Value(b[1]);
      if |b| < 2 + n then None else Some(Request(b[0], b[2..2 + n], b[2 + n..]))
  }

  function EncodeMr(r: Request): seq<bv8> { [r.service, Octet(|r.path| / 2 % 256)] + r.path + r.data }

  predicate PathOk(r: Request) { |r.path| % 2 == 0 && |r.path| <= 510 }

  lemma MrRoundTrip(r: Request)
    requires PathOk(r)
    ensures ParseMr(EncodeMr(r)) == Some(r)
  {
    hide Octet, Value;
    OctetValue(|r.path| / 2);
    var b := EncodeMr(r);
    assert b[2..2 + |r.path|] == r.path && b[2 + |r.path|..] == r.data;
  }

  function Words(ws: seq<nat>): (r: seq<bv8>)
    ensures |r| == 2 * |ws|
    decreases |ws|
  {
    if ws == [] then [] else Out16(ws[0]) + Words(ws[1..])
  }

  function EncodeResponse(r: Response): (b: seq<bv8>)
    ensures |b| == 4 + 2 * |r.extra| + |r.data|
  {
    [r.service, 0, r.status, Octet(|r.extra| % 256)] + Words(r.extra) + r.data
  }

  const REPLY_BUFFER: nat := 520
  const SERVICE_NOT_SUPPORTED: bv8 := 0x08
  const TOO_MUCH_DATA: bv8 := 0x15

  // A response too large for the buffer is replaced by an error.
  function Fitted(r: Response): Response {
    if |EncodeResponse(r)| <= REPLY_BUFFER then r else ErrorResponse(r.service & 0x7F, TOO_MUCH_DATA)
  }

  // ---- Packets: a count, a table of offsets, and the parts ----

  function Offsets(parts: seq<seq<bv8>>, at: nat): (r: seq<nat>)
    ensures |r| == |parts|
    decreases |parts|
  {
    if parts == [] then [] else [at] + Offsets(parts[1..], at + |parts[0]|)
  }

  function TableEnd(n: nat): nat { 2 + 2 * n }

  function Pack(parts: seq<seq<bv8>>): seq<bv8> {
    Out16(|parts| % 0x1_0000) + Words(Offsets(parts, TableEnd(|parts|))) + Concat(parts)
  }

  function Table(d: seq<bv8>, i: nat, n: nat): (r: seq<nat>)
    requires TableEnd(i + n) <= |d|
    ensures |r| == n && forall k :: 0 <= k < n ==> r[k] == U16(d, TableEnd(i + k))
    decreases n
  {
    if n == 0 then [] else [U16(d, TableEnd(i))] + Table(d, i + 1, n - 1)
  }

  // Each offset behind the table, inside the packet and not before the one in
  // front of it.
  predicate TableOk(d: seq<bv8>, t: seq<nat>) {
    forall i :: 0 <= i < |t| ==> TableEnd(|t|) <= t[i] <= |d| && (i + 1 < |t| ==> t[i] <= t[i + 1])
  }

  function Slices(d: seq<bv8>, t: seq<nat>): (r: seq<seq<bv8>>)
    requires TableOk(d, t)
    ensures |r| == |t|
    ensures forall i :: 0 <= i < |t| ==> r[i] == d[t[i]..(if i + 1 < |t| then t[i + 1] else |d|)]
  {
    seq(|t|, i requires 0 <= i < |t| => d[t[i]..(if i + 1 < |t| then t[i + 1] else |d|)])
  }

  function Split(d: seq<bv8>): Option<seq<seq<bv8>>> {
    if |d| < 2 then None
    else
      var n := U16(d, 0);
      if |d| < TableEnd(n) then None
      else
        var t := Table(d, 0, n);
        if TableOk(d, t) then Some(Slices(d, t)) else None
  }

  // ---- Packed and split again ----

  predicate Packable(parts: seq<seq<bv8>>) { |Pack(parts)| < 0x1_0000 }

  lemma {:induction false} OffsetIs(parts: seq<seq<bv8>>, at: nat, i: nat)
    requires i < |parts|
    ensures Offsets(parts, at)[i] == at + |Concat(parts[..i])|
    ensures i + 1 < |parts| ==> Offsets(parts, at)[i + 1] == Offsets(parts, at)[i] + |parts[i]|
    decreases |parts|
  {
    if i > 0 {
      OffsetIs(parts[1..], at + |parts[0]|, i - 1);
      assert parts[..i] == [parts[0]] + parts[1..][..i - 1];
      assert parts[..i][1..] == parts[1..][..i - 1];
    } else if 1 < |parts| {
      assert Offsets(parts, at)[1] == Offsets(parts[1..], at + |parts[0]|)[0];
    }
  }

  lemma {:induction false} ConcatAt(parts: seq<seq<bv8>>, i: nat)
    requires i < |parts|
    ensures |Concat(parts[..i])| + |parts[i]| <= |Concat(parts)|
    ensures Concat(parts)[|Concat(parts[..i])|..|Concat(parts[..i])| + |parts[i]|] == parts[i]
    ensures i + 1 == |parts| ==> |Concat(parts[..i])| + |parts[i]| == |Concat(parts)|
    decreases |parts|
  {
    var rest := Concat(parts[1..]);
    if i > 0 {
      ConcatAt(parts[1..], i - 1);
      assert parts[..i][0] == parts[0] && parts[..i][1..] == parts[1..][..i - 1];
      var a, n := |Concat(parts[1..][..i - 1])|, |parts[i]|;
      assert (parts[0] + rest)[|parts[0]| + a..|parts[0]| + a + n] == rest[a..a + n];
    } else {
      assert (parts[0] + rest)[..|parts[0]|] == parts[0];
    }
  }

  lemma {:induction false} WordAt(ws: seq<nat>, i: nat)
    requires i < |ws|
    ensures Words(ws)[2 * i..2 * i + 2] == Out16(ws[i])
    decreases |ws|
  {
    hide Out16;
    if i > 0 {
      WordAt(ws[1..], i - 1);
      SliceOfTail(Out16(ws[0]), Words(ws[1..]), 2 * i - 2, 2 * i);
    }
  }

  lemma PackParts(parts: seq<seq<bv8>>)
    ensures var head := TableEnd(|parts|);
      |Pack(parts)| == head + |Concat(parts)| && Pack(parts)[head..] == Concat(parts)
    ensures Pack(parts)[2..TableEnd(|parts|)] == Words(Offsets(parts, TableEnd(|parts|)))
    ensures Pack(parts)[..2] == Out16(|parts| % 0x1_0000)
  {
    hide Out16, Words, Offsets, Concat;
  }

  lemma PackedOffset(parts: seq<seq<bv8>>, i: nat)
    requires Packable(parts) && i < |parts|
    ensures |Pack(parts)| >= TableEnd(i + 1) && U16(Pack(parts), TableEnd(i)) == StartOf(parts, i)
  {
    hide Out16, U16, Words, Offsets, Pack;
    var at, d := TableEnd(|parts|), Pack(parts);
    var ws := Offsets(parts, at);
    PackParts(parts);
    OffsetIs(parts, at, i);
    ConcatAt(parts, i);
    WordAt(ws, i);
    SliceOfSlice(d, 2, at, 2 * i, 2 * i + 2);
    U16Out16(d, TableEnd(i), ws[i]);
  }

  lemma PackedCount(parts: seq<seq<bv8>>)
    requires Packable(parts)
    ensures |Pack(parts)| >= TableEnd(|parts|) && U16(Pack(parts), 0) == |parts|
  {
    hide Out16, U16, Words, Offsets, Concat, Pack;
    PackParts(parts);
    assert Pack(parts)[0..2] == Pack(parts)[..2];
    U16Out16(Pack(parts), 0, |parts|);
  }

  // Where part i stands in the packet.
  function StartOf(parts: seq<seq<bv8>>, i: nat): nat
    requires i < |parts|
  {
    TableEnd(|parts|) + |Concat(parts[..i])|
  }

  function EndOf(parts: seq<seq<bv8>>, i: nat): nat
    requires i < |parts|
  {
    if i + 1 < |parts| then StartOf(parts, i + 1) else |Pack(parts)|
  }

  lemma PackedPart(parts: seq<seq<bv8>>, i: nat)
    requires Packable(parts) && i < |parts|
    ensures EndOf(parts, i) == StartOf(parts, i) + |parts[i]| <= |Pack(parts)|
    ensures Pack(parts)[StartOf(parts, i)..EndOf(parts, i)] == parts[i]
  {
    hide Out16, Words, Offsets, Concat, Pack;
    var d, a := Pack(parts), |Concat(parts[..i])|;
    PackParts(parts);
    ConcatAt(parts, i);
    if i + 1 < |parts| { NextStart(parts, i); }
    SliceOfSlice(d, TableEnd(|parts|), |d|, a, a + |parts[i]|);
    assert d[TableEnd(|parts|)..|d|] == d[TableEnd(|parts|)..];
  }

  lemma NextStart(parts: seq<seq<bv8>>, i: nat)
    requires i < |parts|
    ensures |Concat(parts[..i + 1])| == |Concat(parts[..i])| + |parts[i]|
  {
    hide Concat;
    var firsts := parts[..i + 1];
    ConcatAt(firsts, i);
    assert firsts[..i] == parts[..i];
  }

  // What is packed is split into the same parts.
  lemma PackSplit(parts: seq<seq<bv8>>)
    requires Packable(parts)
    ensures Split(Pack(parts)) == Some(parts)
  {
    hide U16, Pack, Concat;
    var d, n := Pack(parts), |parts|;
    PackedCount(parts);
    var t := Table(d, 0, n);
    forall i | 0 <= i < n
      ensures t[i] == StartOf(parts, i) && TableEnd(n) <= t[i] <= EndOf(parts, i) <= |d| &&
        d[t[i]..EndOf(parts, i)] == parts[i]
    {
      PackedOffset(parts, i);
      PackedPart(parts, i);
    }
    assert TableOk(d, t);
    assert Slices(d, t) == parts;
  }

  // ---- Handling a packet ----

  // The reply to one part: an error for what is no request.
  function PartReply(answer: Request -> Response, part: seq<bv8>): seq<bv8> {
    var r := ParseMr(part);
    EncodeResponse(Fitted(if r.None? then ErrorResponse(0, 0x13) else answer(r.value)))
  }

  function PartReplies(answer: Request -> Response, parts: seq<seq<bv8>>): (r: seq<seq<bv8>>)
    ensures |r| == |parts| && forall i :: 0 <= i < |parts| ==> r[i] == PartReply(answer, parts[i])
  {
    seq(|parts|, i requires 0 <= i < |parts| => PartReply(answer, parts[i]))
  }

  function HandlePacket(answer: Request -> Response, r: Request): Response {
    var parts := Split(r.data);
    if parts.None? then ErrorResponse(r.service, 0x13)
    else Response(Replied(r.service), 0, [], Pack(PartReplies(answer, parts.value)))
  }

  // ---- The client's multi-tag read ----

  // What one response tells the client: the data of a complete or of a partial
  // success.
  function Outcome(r: Response): Option<seq<bv8>> {
    if r.status == 0x00 || r.status == 0x06 then Some(r.data) else None
  }

  function ReadPart(d: seq<bv8>, start: nat, end: nat): Option<seq<bv8>> {
    if start + 4 > |d| || end > |d| || start > end then None
    else
      var dataStart := start + 4 + 2 * Value(d[start + 3]);
      if d[start + 2] != 0x00 && d[start + 2] != 0x06 then None
      else Some(if dataStart < end then d[dataStart..end] else [])
  }

  lemma PartRead(d: seq<bv8>, start: nat, r: Response)
    requires |r.extra| < 256 && start + |EncodeResponse(r)| <= |d|
    requires d[start..start + |EncodeResponse(r)|] == EncodeResponse(r)
    ensures ReadPart(d, start, start + |EncodeResponse(r)|) == Outcome(r)
  {
    hide Octet, Value, Words, EncodeResponse;
    var b := EncodeResponse(r);
    ResponseBytes(r);
    Standing(d, start, b, 4 + 2 * |r.extra|);
    OctetValue(|r.extra|);
  }

  lemma Standing(d: seq<bv8>, start: nat, b: seq<bv8>, n: nat)
    requires start + |b| <= |d| && d[start..start + |b|] == b && 4 <= n <= |b|
    ensures d[start + 2] == b[2] && d[start + 3] == b[3] && d[start + n..start + |b|] == b[n..]
  {
    SliceOfSlice(d, start, start + |b|, n, |b|);
    assert d[start..start + |b|][2] == d[start + 2] && d[start..start + |b|][3] == d[start + 3];
  }

  lemma ResponseBytes(r: Response)
    ensures var b, n := EncodeResponse(r), 4 + 2 * |r.extra|;
      b[2] == r.status && b[3] == Octet(|r.extra| % 256) && b[n..] == r.data == b[n..|b|]
  {
    hide Octet, Words;
  }

  // ---- Packets as loops ----

  method BuildPacket(parts: seq<seq<bv8>>) returns (body: array<bv8>)
    ensures fresh(body) && body[..] == Pack(parts)
  {
    hide Out16;
    var header := TableEnd(|parts|);
    var total := header;
    assert parts[0..] == parts;
    for i := 0 to |parts|
      invariant total + |Concat(parts[i..])| == header + |Concat(parts)|
    {
      assert parts[i..][0] == parts[i] && parts[i..][1..] == parts[i + 1..];
      total := total + |parts[i]|;
    }
    assert parts[|parts|..] == [];
    body := new bv8[total];
    var off := Put(body, 0, Out16(|parts| % 0x1_0000));
    off := PutTable(body, off, parts, header);
    off := PutParts(body, off, parts);
    assert body[..] == body[..off];
  }

  method PutTable(body: array<bv8>, start: nat, parts: seq<seq<bv8>>, header: nat) returns (off: nat)
    requires start + 2 * |parts| <= body.Length
    modifies body
    ensures off == start + 2 * |parts| && body[..off] == old(body[..start]) + Words(Offsets(parts, header))
  {
    hide Out16;
    off := start;
    var current: nat := header;
    ghost var all := old(body[..start]) + Words(Offsets(parts, header));
    assert parts[0..] == parts;
    for i := 0 to |parts|
      invariant off == start + 2 * i && body[..off] + Words(Offsets(parts[i..], current)) == all
    {
      assert parts[i..][0] == parts[i] && parts[i..][1..] == parts[i + 1..];
      ghost var before := body[..off];
      OffsetsStep(parts[i..], current);
      off := Put(body, off, Out16(current));
      current := current + |parts[i]|;
      assert body[..off] + Words(Offsets(parts[i + 1..], current)) ==
        before + (body[off - 2..off] + Words(Offsets(parts[i + 1..], current)));
    }
    assert parts[|parts|..] == [];
  }

  lemma OffsetsStep(parts: seq<seq<bv8>>, at: nat)
    requires parts != []
    ensures Words(Offsets(parts, at)) == Out16(at) + Words(Offsets(parts[1..], at + |parts[0]|))
  {
    hide Out16;
    assert Offsets(parts, at)[1..] == Offsets(parts[1..], at + |parts[0]|);
  }

  method PutParts(body: array<bv8>, start: nat, parts: seq<seq<bv8>>) returns (off: nat)
    requires start + |Concat(parts)| <= body.Length
    modifies body
    ensures off == start + |Concat(parts)| && body[..off] == old(body[..start]) + Concat(parts)
  {
    off := start;
    ghost var all := old(body[..start]) + Concat(parts);
    assert parts[0..] == parts;
    for i := 0 to |parts|
      invariant off + |Concat(parts[i..])| == |all| && body[..off] + Concat(parts[i..]) == all
    {
      assert parts[i..][0] == parts[i] && parts[i..][1..] == parts[i + 1..];
      ghost var before := body[..off];
      off := Put(body, off, parts[i]);
      assert body[..off] + Concat(parts[i + 1..]) == before + (parts[i] + Concat(parts[i + 1..]));
    }
    assert parts[|parts|..] == [];
  }

  method SplitPacket(d: seq<bv8>) returns (r: Option<seq<seq<bv8>>>)
    ensures r == Split(d)
  {
    hide U16;
    if |d| < 2 { return None; }
    var n := U16(d, 0);
    if |d| < TableEnd(n) { return None; }
    var t := Table(d, 0, n);
    for i := 0 to n
      invariant forall k :: 0 <= k < i ==> TableEnd(n) <= t[k] <= |d| && (k + 1 < n ==> t[k] <= t[k + 1])
    {
      if t[i] < TableEnd(n) || t[i] > |d| { return None; }
      if i + 1 < n && t[i] > t[i + 1] { return None; }
    }
    var parts: seq<seq<bv8>> := [];
    for i := 0 to n
      invariant parts == Slices(d, t)[..i]
    {
      var end := if i + 1 < n then t[i + 1] else |d|;
      parts := parts + [d[t[i]..end]];
    }
    assert Slices(d, t)[..n] == Slices(d, t);
    r := Some(parts);
  }

  // ---- Reading many tags at once ----

  function ReadOf(pathOf: string -> seq<bv8>, name: string): Request { Request(0x4C, pathOf(name), [0x01, 0x00]) }

  function ReadParts(pathOf: string -> seq<bv8>, names: seq<string>): (r: seq<seq<bv8>>)
    ensures |r| == |names| && forall i :: 0 <= i < |names| ==> r[i] == EncodeMr(ReadOf(pathOf, names[i]))
  {
    seq(|names|, i requires 0 <= i < |names| => EncodeMr(ReadOf(pathOf, names[i])))
  }

  // The buffer that the reply to a whole message must fit.
  const MESSAGE_BUFFER: nat := 4096

  function Delivered(service: bv8, r: Response): Response {
    if |EncodeResponse(r)| <= MESSAGE_BUFFER then r else ErrorResponse(service, TOO_MUCH_DATA)
  }

  // What a request of its own for the name tells the client.
  function Single(answer: Request -> Response, pathOf: string -> seq<bv8>, name: string): Option<seq<bv8>> {
    Outcome(Delivered(0x4C, answer(ReadOf(pathOf, name))))
  }

  // What is left of it in a packet, where every reply must fit a small buffer.
  function InPacket(answer: Request -> Response, pathOf: string -> seq<bv8>, name: string): Option<seq<bv8>> {
    Outcome(Fitted(answer(ReadOf(pathOf, name))))
  }

  predicate ReplyFits(answer: Request -> Response, pathOf: string -> seq<bv8>, name: string) {
    |EncodeResponse(answer(ReadOf(pathOf, name)))| <= 520
  }

  lemma PacketKeepsExact(answer: Request -> Response, pathOf: string -> seq<bv8>, name: string)
    ensures InPacket(answer, pathOf, name) == Single(answer, pathOf, name) <==>
      ReplyFits(answer, pathOf, name) || Single(answer, pathOf, name).None?
  {
    hide EncodeResponse;
  }

  // A reply of the tag services as a response.
  function ResponseOf(service: bv8, reply: Reply): Response {
    match reply
    case Done(data) => Response(Replied(service), 0x00, [], data)
    case More(data) => Response(Replied(service), 0x06, [], data)
    case Fail(status, extended) =>
      Response(Replied(service), Octet(status % 256), if extended.Some? then [extended.value] else [], [])
  }

  // A reply is marked as one, with status 0 or 6 by whether it is all there is, or with
  // its error and what extends that; only data reaches the client.
  lemma ReplyTells(service: bv8, reply: Reply)
    ensures
      var r := ResponseOf(service, reply);
      && r.service & 0x80 == 0x80 && r.service & 0x7F == service & 0x7F
      && (reply.Done? ==> r.status == 0x00 && r.extra == [])
      && (reply.More? ==> r.status == 0x06 && r.extra == [])
      && (reply.Fail? && reply.status < 0x100 ==>
        Value(r.status) == reply.status && r.extra == if reply.extended.Some? then [reply.extended.value] else [])
      && (!reply.Fail? ==> Outcome(r) == Some(reply.data))
  {
    hide Octet, Value;
    if reply.Fail? { OctetValue(reply.status % 256); }
  }

  lemma ErrorFits(service: bv8, status: bv8)
    ensures |EncodeResponse(ErrorResponse(service, status))| == 4
  {}

  // It always fits: the tag services keep to less than the buffer has.
  lemma ReadReplyFits(service: bv8, mem: seq<bv8>, d: seq<bv8>, w: Spot)
    requires BitHere(mem, w)
    ensures |EncodeResponse(ResponseOf(service, ReadAt(mem, d, w)))| <= REPLY_BUFFER
  {
    hide U16, Octet, Words;
  }

  predicate Holds(result: map<string, seq<bv8>>, name: string, outcome: Option<seq<bv8>>) {
    if outcome.Some? then name in result && result[name] == outcome.value else name !in result
  }

  lemma ReplyPart(answer: Request -> Response, pathOf: string -> seq<bv8>, name: string)
    requires PathOk(ReadOf(pathOf, name))
    ensures PartReply(answer, EncodeMr(ReadOf(pathOf, name))) == EncodeResponse(Fitted(answer(ReadOf(pathOf, name))))
  {
    hide EncodeMr, EncodeResponse, Fitted, PathOk, ParseMr;
    MrRoundTrip(ReadOf(pathOf, name));
  }

  // Paths and statuses have the lengths that a packet can say, and the offsets
  // of the packed requests fit sixteen bits.
  predicate Readable(answer: Request -> Response, pathOf: string -> seq<bv8>, names: seq<string>) {
    && (forall i :: 0 <= i < |names| ==> NameReadable(answer, pathOf, names[i]))
    && Packable(ReadParts(pathOf, names))
  }

  predicate NameReadable(answer: Request -> Response, pathOf: string -> seq<bv8>, name: string) {
    PathOk(ReadOf(pathOf, name)) && |answer(ReadOf(pathOf, name)).extra| < 256
  }

  // The reply to the packet.
  function PacketReply(answer: Request -> Response, pathOf: string -> seq<bv8>, names: seq<string>): seq<bv8> {
    Pack(PartReplies(answer, ReadParts(pathOf, names)))
  }

  predicate PacketFits(answer: Request -> Response, pathOf: string -> seq<bv8>, names: seq<string>) {
    4 + |PacketReply(answer, pathOf, names)| <= 4096
  }

  lemma PacketHandled(answer: Request -> Response, pathOf: string -> seq<bv8>, names: seq<string>, path: seq<bv8>)
    requires Packable(ReadParts(pathOf, names))
    ensures var r := Delivered(0x0A, HandlePacket(answer, Request(0x0A, path, Pack(ReadParts(pathOf, names)))));
      if PacketFits(answer, pathOf, names) then r.status == 0 && r.data == PacketReply(answer, pathOf, names)
      else r.status == TOO_MUCH_DATA
  {
    hide PartReplies, Split, ReadParts, Packable, Pack;
    PackSplit(ReadParts(pathOf, names));
  }

  // What the client finds in the reply where the offset table sends it.
  function FoundAt(d: seq<bv8>, n: nat, i: nat): Option<seq<bv8>>
    requires TableEnd(n) <= |d| && i < n
  {
    ReadPart(d, U16(d, TableEnd(i)), if i + 1 < n then U16(d, TableEnd(i + 1)) else |d|)
  }

  lemma FoundIsInPacket(answer: Request -> Response, pathOf: string -> seq<bv8>, names: seq<string>, i: nat)
    requires Readable(answer, pathOf, names) && PacketFits(answer, pathOf, names) && i < |names|
    ensures var d := PacketReply(answer, pathOf, names);
      TableEnd(|names|) <= |d| && U16(d, 0) == |names| &&
      FoundAt(d, |names|, i) == InPacket(answer, pathOf, names[i])
  {
    hide EncodeMr, EncodeResponse, Outcome, PartReply, Pack, Concat, ReadPart, Split, U16;
    var parts := PartReplies(answer, ReadParts(pathOf, names));
    PackedCount(parts);
    PackedOffset(parts, i);
    if i + 1 < |names| { PackedOffset(parts, i + 1); }
    PackedPart(parts, i);
    assert NameReadable(answer, pathOf, names[i]);
    ReplyPart(answer, pathOf, names[i]);
    PartRead(Pack(parts), StartOf(parts, i), Fitted(answer(ReadOf(pathOf, names[i]))));
  }

  // All that a packed read tells the client: nothing, or what is left of each name
  // in the packet.
  function Gathered(answer: Request -> Response, pathOf: string -> seq<bv8>, names: seq<string>)
    : Option<map<string, seq<bv8>>>
  {
    if names != [] && !PacketFits(answer, pathOf, names) then None
    else
      Some(map n | n in names && InPacket(answer, pathOf, n).Some? :: InPacket(answer, pathOf, n).value)
  }

  // The packed read, handled part by part and unpacked. It fails exactly when
  // the whole reply is too large for one message. Otherwise a name has exactly
  // the outcome of a read of its own unless that outcome is data that does not
  // fit its place in the packet; then it has none.
  method ReadMultiple(answer: Request -> Response, pathOf: string -> seq<bv8>, names: seq<string>)
    returns (r: Option<map<string, seq<bv8>>>)
    requires Readable(answer, pathOf, names)
    ensures r.Some? <==> names == [] || PacketFits(answer, pathOf, names)
    ensures r.Some? ==> forall n :: n in names ==>
      (Holds(r.value, n, Single(answer, pathOf, n)) <==>
       ReplyFits(answer, pathOf, n) || Single(answer, pathOf, n).None?)
    ensures r.Some? ==> forall n :: n in names && !ReplyFits(answer, pathOf, n) ==> n !in r.value
    ensures r.Some? ==> forall n :: n in r.value ==> n in names
    ensures r == Gathered(answer, pathOf, names)
  {
    hide NameReadable, PartReplies, Pack, FoundAt, Single;
    hide InPacket, ReplyFits, Split, EncodeMr, HandlePacket, Delivered;
    hide U16, PacketReply;
    var result: map<string, seq<bv8>> := map[];
    if names == [] { return Some(result); }
    var path: seq<bv8> := [0x20, 0x02, 0x24, 0x01];
    var body := BuildPacket(ReadParts(pathOf, names));
    PacketHandled(answer, pathOf, names, path);
    var response := Delivered(0x0A, HandlePacket(answer, Request(0x0A, path, body[..])));
    if response.status != 0x00 && response.status != 0x1E { return None; }
    var d := response.data;
    FoundIsInPacket(answer, pathOf, names, 0);
    if |d| < 2 { return Some(result); }
    var count := U16(d, 0);
    if count == 0 || |d| < TableEnd(count) { return Some(result); }
    var i := 0;
    while i < count && i < |names|
      invariant 0 <= i <= |names|
      invariant forall k :: 0 <= k < i ==> Holds(result, names[k], InPacket(answer, pathOf, names[k]))
      invariant forall n :: n in result ==> n in names[..i]
    {
      FoundIsInPacket(answer, pathOf, names, i);
      var outcome := FoundAt(d, count, i);
      if outcome.Some? && names[i] !in result {
        result := result[names[i] := outcome.value];
      }
      i := i + 1;
    }
    assert names[..i] == names;
    Agreement(answer, pathOf, names, result);
    AllGathered(answer, pathOf, names, result);
    return Some(result);
  }

  lemma AllGathered(answer: Request -> Response, pathOf: string -> seq<bv8>, names: seq<string>,
    result: map<string, seq<bv8>>)
    requires PacketFits(answer, pathOf, names) && forall n :: n in result ==> n in names
    requires forall n :: n in names ==> Holds(result, n, InPacket(answer, pathOf, n))
    ensures Gathered(answer, pathOf, names) == Some(result)
  {
    hide PacketFits, InPacket;
    var all := Gathered(answer, pathOf, names).value;
    forall n
      ensures n in all <==> n in result
      ensures n in all ==> all[n] == result[n]
    {
      if n in names { assert Holds(result, n, InPacket(answer, pathOf, n)); }
    }
    assert all == result;
  }

  lemma Agreement(answer: Request -> Response, pathOf: string -> seq<bv8>, names: seq<string>,
    result: map<string, seq<bv8>>)
    requires forall n :: n in names ==> Holds(result, n, InPacket(answer, pathOf, n))
    ensures forall n :: n in names ==>
      (Holds(result, n, Single(answer, pathOf, n)) <==>
       ReplyFits(answer, pathOf, n) || Single(answer, pathOf, n).None?)
    ensures forall n :: n in names && !ReplyFits(answer, pathOf, n) ==> n !in result
  {
    hide Single, InPacket, ReplyFits;
    forall n | n in names
      ensures Holds(result, n, Single(answer, pathOf, n)) <==>
        ReplyFits(answer, pathOf, n) || Single(answer, pathOf, n).None?
      ensures !ReplyFits(answer, pathOf, n) ==> n !in result
    {
      PacketKeepsExact(answer, pathOf, n);
      CutIsNone(answer, pathOf, n);
    }
  }

  lemma CutIsNone(answer: Request -> Response, pathOf: string -> seq<bv8>, name: string)
    ensures !ReplyFits(answer, pathOf, name) ==> InPacket(answer, pathOf, name).None?
  {
    hide EncodeResponse;
  }
}
