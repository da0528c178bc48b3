// The Forward Open request, in its 36-byte and its 40-byte (large) form.
module ForwardOpen {
  import opened Numbers
  import opened Options
  import opened Words

  datatype Params = Params(redundant: bool, kind: bv8, priority: bv8, variable: bool, size: bv16)

  function Kind16(raw: bv16): bv8 { ((raw >> 13) & 0x03) as bv8 }

  function Priority16(raw: bv16): bv8 { ((raw >> 10) & 0x03) as bv8 }

  function Parse16(raw: bv16): Params {
    Params(raw & 0x8000 != 0, Kind16(raw), Priority16(raw), raw & 0x0200 != 0, raw & 0x01FF)
  }

  function Kind32(raw: bv32): bv8 { ((raw >> 29) & 0x03) as bv8 }

  function Priority32(raw: bv32): bv8 { ((raw >> 26) & 0x03) as bv8 }

  function Parse32(raw: bv32): Params {
    Params(raw & 0x8000_0000 != 0, Kind32(raw), Priority32(raw), raw & 0x0200_0000 != 0, (raw & 0xFFFF) as bv16)
  }

  // The same parameters as a word: owner, type, priority, variable size and size
  // from the top bits down, with unused bits between them.
  function Joined16(owner: bv16, kind: bv8, priority: bv8, variable: bv16, size: bv16): bv16 {
    owner | ((kind as bv16) << 13) | ((priority as bv16) << 10) | variable | size
  }

  function Word16(p: Params): bv16 {
    Joined16(if p.redundant then 0x8000 else 0, p.kind, p.priority, if p.variable then 0x0200 else 0, p.size)
  }

  predicate Holds16(raw: bv16, owner: bv16, kind: bv8, priority: bv8, variable: bv16, size: bv16) {
    && (owner == 0 || owner == 0x8000) && kind <= 3 && priority <= 3 && (variable == 0 || variable == 0x0200)
    && size <= 0x01FF && raw & 0xEFFF == Joined16(owner, kind, priority, variable, size)
  }

  lemma OwnerRead16(raw: bv16, o: bv16, k: bv8, q: bv8, v: bv16, n: bv16)
    requires Holds16(raw, o, k, q, v, n)
    ensures raw & 0x8000 == o
  {}

  lemma KindRead16(raw: bv16, o: bv16, k: bv8, q: bv8, v: bv16, n: bv16)
    requires Holds16(raw, o, k, q, v, n)
    ensures Kind16(raw) == k
  {}

  lemma PriorityRead16(raw: bv16, o: bv16, k: bv8, q: bv8, v: bv16, n: bv16)
    requires Holds16(raw, o, k, q, v, n)
    ensures Priority16(raw) == q
  {}

  lemma VariableRead16(raw: bv16, o: bv16, k: bv8, q: bv8, v: bv16, n: bv16)
    requires Holds16(raw, o, k, q, v, n)
    ensures raw & 0x0200 == v
  {}

  lemma SizeRead16(raw: bv16, o: bv16, k: bv8, q: bv8, v: bv16, n: bv16)
    requires Holds16(raw, o, k, q, v, n)
    ensures raw & 0x01FF == n
  {}

  lemma Rejoined16(raw: bv16)
    ensures Holds16(raw, raw & 0x8000, Kind16(raw), Priority16(raw), raw & 0x0200, raw & 0x01FF)
  {}

  // A word is read as parameters exactly if its bits outside the unused ones are
  // theirs.
  lemma Params16Exact(raw: bv16, p: Params)
    ensures Parse16(raw) == p <==>
      p.kind <= 3 && p.priority <= 3 && p.size <= 0x01FF && raw & 0xEFFF == Word16(p)
  {
    hide Joined16, Kind16, Priority16;
    Rejoined16(raw);
    var o: bv16 := if p.redundant then 0x8000 else 0;
    var v: bv16 := if p.variable then 0x0200 else 0;
    if Holds16(raw, o, p.kind, p.priority, v, p.size) {
      OwnerRead16(raw, o, p.kind, p.priority, v, p.size);
      KindRead16(raw, o, p.kind, p.priority, v, p.size);
      PriorityRead16(raw, o, p.kind, p.priority, v, p.size);
      VariableRead16(raw, o, p.kind, p.priority, v, p.size);
      SizeRead16(raw, o, p.kind, p.priority, v, p.size);
    }
  }

  function Joined32(owner: bv32, kind: bv8, priority: bv8, variable: bv32, size: bv16): bv32 {
    owner | ((kind as bv32) << 29) | ((priority as bv32) << 26) | variable | (size as bv32)
  }

  function Word32(p: Params): bv32 {
    Joined32(if p.redundant then 0x8000_0000 else 0, p.kind, p.priority, if p.variable then 0x0200_0000 else 0, p.size)
  }

  predicate Holds32(raw: bv32, owner: bv32, kind: bv8, priority: bv8, variable: bv32, size: bv16) {
    && (owner == 0 || owner == 0x8000_0000) && kind <= 3 && priority <= 3 && (variable == 0 || variable == 0x0200_0000)
    && raw & 0xEE00_FFFF == Joined32(owner, kind, priority, variable, size)
  }

  lemma OwnerRead32(raw: bv32, o: bv32, k: bv8, q: bv8, v: bv32, n: bv16)
    requires Holds32(raw, o, k, q, v, n)
    ensures raw & 0x8000_0000 == o
  {}

  lemma KindRead32(raw: bv32, o: bv32, k: bv8, q: bv8, v: bv32, n: bv16)
    requires Holds32(raw, o, k, q, v, n)
    ensures Kind32(raw) == k
  {}

  lemma PriorityRead32(raw: bv32, o: bv32, k: bv8, q: bv8, v: bv32, n: bv16)
    requires Holds32(raw, o, k, q, v, n)
    ensures Priority32(raw) == q
  {}

  lemma VariableRead32(raw: bv32, o: bv32, k: bv8, q: bv8, v: bv32, n: bv16)
    requires Holds32(raw, o, k, q, v, n)
    ensures raw & 0x0200_0000 == v
  {}

  lemma SizeRead32(raw: bv32, o: bv32, k: bv8, q: bv8, v: bv32, n: bv16)
    requires Holds32(raw, o, k, q, v, n)
    ensures (raw & 0xFFFF) as bv16 == n
  {}

  lemma Rejoined32(raw: bv32)
    ensures Holds32(raw, raw & 0x8000_0000, Kind32(raw), Priority32(raw), raw & 0x0200_0000, (raw & 0xFFFF) as bv16)
  {}

  // A word is read as parameters exactly if its bits outside the unused ones are
  // theirs.
  lemma Params32Exact(raw: bv32, p: Params)
    ensures Parse32(raw) == p <==>
      p.kind <= 3 && p.priority <= 3 && raw & 0xEE00_FFFF == Word32(p)
  {
    hide Joined32, Kind32, Priority32;
    Rejoined32(raw);
    var o: bv32 := if p.redundant then 0x8000_0000 else 0;
    var v: bv32 := if p.variable then 0x0200_0000 else 0;
    if Holds32(raw, o, p.kind, p.priority, v, p.size) {
      OwnerRead32(raw, o, p.kind, p.priority, v, p.size);
      KindRead32(raw, o, p.kind, p.priority, v, p.size);
      PriorityRead32(raw, o, p.kind, p.priority, v, p.size);
      VariableRead32(raw, o, p.kind, p.priority, v, p.size);
      SizeRead32(raw, o, p.kind, p.priority, v, p.size);
    }
  }

  // Point-to-point, high priority, fixed size.
  function SafetyParams(size: bv16): bv16 { 0x4400 | (size & 0x01FF) }

  lemma SafetyParamsRead(size: bv16)
    ensures Parse16(SafetyParams(size)) == Params(false, 2, 1, false, size & 0x01FF)
  {}

  datatype Request = Request(
    priority: bv8, ticks: bv8, otId: bv32, toId: bv32, serial: bv16, vendor: bv16, originator: bv32,
    multiplier: bv8, otRpi: bv32, ot: Params, toRpi: bv32, to: Params, trigger: bv8, path: seq<bv8>, raw: seq<bv8>)

  function HeadSize(large: bool): nat { if large then 40 else 36 }

  function PathBytes(data: seq<bv8>, large: bool): nat
    requires |data| >= HeadSize(large)
  {
    2 * Value(data[HeadSize(large) - 1])
  }

  function ParsedHead(d: seq<bv8>, large: bool, path: seq<bv8>, raw: seq<bv8>): Request
    requires |d| >= HeadSize(large)
  {
    var x := if large then 30 else 28;
    Request(d[0], d[1], Read32(d[2..6]), Read32(d[6..10]), Read16(d[10..12]), Read16(d[12..14]), Read32(d[14..18]),
            d[18], Read32(d[22..26]), if large then Parse32(Read32(d[26..30])) else Parse16(Read16(d[26..28])),
            Read32(d[x..x + 4]), if large then Parse32(Read32(d[34..38])) else Parse16(Read16(d[32..34])),
            d[HeadSize(large) - 2], path, raw)
  }

  // The path is cut to its announced length, and so is the raw copy of the
  // request that the path CRC is taken over.
  function ParseRequest(data: seq<bv8>, large: bool): (r: Option<Request>)
    ensures r.Some? ==> |r.value.raw| >= 36
  {
    var n := HeadSize(large);
    if |data| < n then None
    else
      var end := n + PathBytes(data, large);
      if end > |data| then None else Some(ParsedHead(data, large, data[n..end], data[..end]))
  }

  // ---- What stands in a head is read from it ----

  // The network parameters in the width of the two forms.
  datatype Raw = Of16(short: bv16) | Of32(long: bv32)

  function RawBytes(x: Raw): (r: seq<bv8>)
    ensures |r| == if x.Of32? then 4 else 2
  {
    if x.Of32? then Le32(x.long) else Le16(x.short)
  }

  function ParamsOf(x: Raw): Params { if x.Of32? then Parse32(x.long) else Parse16(x.short) }

  function FirstBytes(r: Request): (b: seq<bv8>)
    ensures |b| == 26
  {
    [r.priority, r.ticks] + Le32(r.otId) + Le32(r.toId) + Le16(r.serial) + Le16(r.vendor) + Le32(r.originator) +
    [r.multiplier, 0, 0, 0] + Le32(r.otRpi)
  }

  function HeadBytes(r: Request, ot: Raw, to: Raw, words: bv8): (b: seq<bv8>)
    requires ot.Of32? == to.Of32?
    ensures |b| == HeadSize(ot.Of32?)
  {
    FirstBytes(r) + RawBytes(ot) + Le32(r.toRpi) + RawBytes(to) + [r.trigger, words]
  }

  lemma FirstRead(r: Request, d: seq<bv8>)
    requires FirstBytes(r) <= d
    ensures d[0] == r.priority && d[1] == r.ticks && Read32(d[2..6]) == r.otId && Read32(d[6..10]) == r.toId
    ensures Read16(d[10..12]) == r.serial && Read16(d[12..14]) == r.vendor && Read32(d[14..18]) == r.originator
    ensures d[18] == r.multiplier && Read32(d[22..26]) == r.otRpi
  {
    hide Le16, Le32, Read16, Read32;
    FirstSlices(r, d);
    Read32Le32(r.otId);
    Read32Le32(r.toId);
    Read16Le16(r.serial);
    Read16Le16(r.vendor);
    Read32Le32(r.originator);
    Read32Le32(r.otRpi);
  }

  lemma FirstSlices(r: Request, d: seq<bv8>)
    requires FirstBytes(r) <= d
    ensures d[0] == r.priority && d[1] == r.ticks && d[2..6] == Le32(r.otId) && d[6..10] == Le32(r.toId)
    ensures d[10..12] == Le16(r.serial) && d[12..14] == Le16(r.vendor) && d[14..18] == Le32(r.originator)
    ensures d[18] == r.multiplier && d[22..26] == Le32(r.otRpi)
  {
    hide Le16, Le32;
    var b := FirstBytes(r);
    assert d[..26] == b;
    assert b[2..6] == Le32(r.otId) && b[6..10] == Le32(r.toId) && b[10..12] == Le16(r.serial);
    assert b[12..14] == Le16(r.vendor) && b[14..18] == Le32(r.originator) && b[22..26] == Le32(r.otRpi);
    Within(d, 26, 2, 6);
    Within(d, 26, 6, 10);
    Within(d, 26, 10, 12);
    Within(d, 26, 12, 14);
    Within(d, 26, 14, 18);
    Within(d, 26, 22, 26);
    assert d[0] == b[0] && d[1] == b[1] && d[18] == b[18];
  }

  lemma Within(d: seq<bv8>, n: nat, i: nat, j: nat)
    requires i <= j <= n <= |d|
    ensures d[..n][i..j] == d[i..j]
  {}

  lemma FourJoined(p: seq<bv8>, q: seq<bv8>, u: seq<bv8>, v: seq<bv8>, end: seq<bv8>)
    ensures
      var b, i, j, k := p + q + u + v + end, |p|, |p + q|, |p + q + u|;
      b[..i] == p && b[i..j] == q && b[j..k] == u && b[k..k + |v|] == v && b[k + |v|..] == end
  {
    var b, i, j, k := p + q + u + v + end, |p|, |p + q|, |p + q + u|;
    assert b[..k + |v|] == p + q + u + v && b[..k] == p + q + u && b[..j] == p + q;
    Within(b, j, i, j);
    Within(b, k, j, k);
    Within(b, k + |v|, k, k + |v|);
  }

  lemma LastSlices(r: Request, ot: Raw, to: Raw, words: bv8, d: seq<bv8>)
    requires ot.Of32? == to.Of32? && HeadBytes(r, ot, to, words) <= d
    ensures FirstBytes(r) <= d && d[HeadSize(ot.Of32?) - 2] == r.trigger && d[HeadSize(ot.Of32?) - 1] == words
    ensures
      if ot.Of32? then d[26..30] == Le32(ot.long) && d[30..34] == Le32(r.toRpi) && d[34..38] == Le32(to.long)
      else d[26..28] == Le16(ot.short) && d[28..32] == Le32(r.toRpi) && d[32..34] == Le16(to.short)
  {
    hide Le16, Le32, FirstBytes;
    var b, n := HeadBytes(r, ot, to, words), HeadSize(ot.Of32?);
    assert d[..n] == b;
    var x := 26 + |RawBytes(ot)|;
    FourJoined(FirstBytes(r), RawBytes(ot), Le32(r.toRpi), RawBytes(to), [r.trigger, words]);
    Within(d, n, 26, x);
    Within(d, n, x, x + 4);
    Within(d, n, x + 4, n - 2);
    assert d[n - 2] == b[n - 2] == b[n - 2..][0] && d[n - 1] == b[n - 1] == b[n - 2..][1];
  }

  // In both forms every field of a head is read back as it was written, and the
  // path and the raw copy are what follows it and all of it.
  lemma HeadRead(r: Request, ot: Raw, to: Raw, words: bv8, path: seq<bv8>)
    requires ot.Of32? == to.Of32? && |path| == 2 * Value(words)
    ensures
      var d := HeadBytes(r, ot, to, words) + path;
      ParseRequest(d, ot.Of32?) == Some(r.(ot := ParamsOf(ot), to := ParamsOf(to), path := path, raw := d))
  {
    hide Le16, Le32, Read16, Read32, Parse16, Parse32, FirstBytes, HeadBytes, Value;
    var d := HeadBytes(r, ot, to, words) + path;
    LastSlices(r, ot, to, words, d);
    FirstRead(r, d);
    Read32Le32(r.toRpi);
    if ot.Of32? {
      Read32Le32(ot.long);
      Read32Le32(to.long);
    } else {
      Read16Le16(ot.short);
      Read16Le16(to.short);
    }
    assert d[HeadSize(ot.Of32?)..|d|] == path && d[..|d|] == d;
  }

  method ParseRequestFrom(data: seq<bv8>, large: bool) returns (r: Option<Request>)
    ensures r == ParseRequest(data, large)
  {
    hide Read16, Read32, Parse16, Parse32, Value;
    if |data| < HeadSize(large) { return None; }
    var off := 0;
    var priority, ticks := data[off], data[off + 1];
    off := off + 2;
    var otId := Read32(data[off..off + 4]);
    off := off + 4;
    var toId := Read32(data[off..off + 4]);
    off := off + 4;
    var serial := Read16(data[off..off + 2]);
    off := off + 2;
    var vendor := Read16(data[off..off + 2]);
    off := off + 2;
    var originator := Read32(data[off..off + 4]);
    off := off + 4;
    var multiplier := data[off];
    off := off + 4;
    var otRpi := Read32(data[off..off + 4]);
    off := off + 4;
    var ot, toRpi, to;
    if large {
      ot := Parse32(Read32(data[off..off + 4]));
      off := off + 4;
      toRpi := Read32(data[off..off + 4]);
      off := off + 4;
      to := Parse32(Read32(data[off..off + 4]));
      off := off + 4;
    } else {
      ot := Parse16(Read16(data[off..off + 2]));
      off := off + 2;
      toRpi := Read32(data[off..off + 4]);
      off := off + 4;
      to := Parse16(Read16(data[off..off + 2]));
      off := off + 2;
    }
    var trigger, words := data[off], data[off + 1];
    off := off + 2;
    var pathBytes := 2 * Value(words);
    if off + pathBytes > |data| { return None; }
    var path, raw := data[off..off + pathBytes], data[..off + pathBytes];
    r := Some(Request(priority, ticks, otId, toId, serial, vendor, originator, multiplier, otRpi, ot, toRpi, to,
                      trigger, path, raw));
  }
}
