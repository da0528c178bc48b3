// Both ends of a safety connection: the scanner that produces frames and counts
// its rollovers, and the two consumers that must find the same count again from
// the frames alone before they can check any of them.
module SafetyLink {
  import opened Numbers
  import opened Words
  import opened SafetyFrame
  import opened FrameLaws
  import opened Rollover

  // ---- How long is the data in a frame of this size? ----

  // Division that truncates towards zero.
  function Half(x: int): int { if x >= 0 then x / 2 else -(-x / 2) }

  function EstimateDataLength(wireSize: int): int {
    var shortLen, longLen := wireSize - 6, Half(wireSize - 8);
    if 1 <= shortLen <= 2 then shortLen
    else if 3 <= longLen <= 250 && longLen * 2 + 8 == wireSize then longLen
    else -1
  }

  // A positive answer is the right one, and every length from 1 to 250 has one.
  lemma EstimateExact(n: nat, wireSize: int, format: Format)
    requires n > 0
    ensures EstimateDataLength(wireSize) == n <==> n <= 250 && wireSize == WireSize(n, format)
  {}

  // ---- Words on the wire ----

  // The sixteen-bit word of a value, and the value of a word.
  function W(x: Word): bv16 { Words.Word(Octet(x % 256), Octet(x / 256)) }

  function I(v: bv16): Word { Value(Lo(v)) + 256 * Value(Hi(v)) }

  lemma WordsMatch(x: Word)
    ensures I(W(x)) == x
  {
    hide Octet, Value, Words.Word, Lo, Hi;
    OctetValue(x % 256);
    OctetValue(x / 256);
    BytesOfWord(Octet(x % 256), Octet(x / 256));
  }

  lemma WInjective(x: Word, y: Word)
    requires W(x) == W(y)
    ensures x == y
  {
    hide W, I;
    WordsMatch(x);
    WordsMatch(y);
  }

  // ---- The mode byte ----

  function CreateMode(runIdle: bool, ping: bv8): bv8 {
    RedundantBits((if runIdle then 0x80 else 0) | (ping & 0x03))
  }

  function RedundantBits(raw: bv8): bv8 {
    var r := if raw & 0x80 == 0 then raw | 0x10 else raw & 0xEF;
    if r & 0x08 == 0 then r | 0x04 else r & 0xFB
  }

  predicate RunIdle(mode: bv8) { mode & 0x80 != 0 }

  predicate Redundant(mode: bv8) {
    RunIdle(mode) != (mode & 0x10 != 0) && (mode & 0x08 != 0) != (mode & 0x04 != 0)
  }

  lemma ModeCarries(runIdle: bool, ping: bv8)
    ensures RunIdle(CreateMode(runIdle, ping)) == runIdle
    ensures CreateMode(runIdle, ping) & 0x03 == ping & 0x03
    ensures Redundant(CreateMode(runIdle, ping))
  {}

  // ---- The consumers ----

  function Peek(x: seq<bv8>, n: nat, format: Format): Word { I(ExtractTimestamp(x, n, format)) }

  datatype Outcome = Dropped | Checked(result: Decoded)

  // An Extended frame sent from position p, with as much data as a consumer can
  // tell from its size.
  datatype Sent = Sent(p: nat, data: seq<bv8>, mode: bv8)

  predicate SomeData(f: Sent) { 1 <= |f.data| <= 250 }

  predicate ShortData(f: Sent) { 1 <= |f.data| <= 2 }

  function FrameOf(f: Sent): Frame { Frame(f.data, f.mode, W(Ts(f.p))) }

  function OnWire(f: Sent, s: Seeds): seq<bv8> { Encode(FrameOf(f), Extended, s, W(Roll(f.p))) }

  // What the scanner does with a payload from the target.
  function ScannerStep(t: Tracker, x: seq<bv8>, format: Format, s: Seeds): (r: (Tracker, Outcome)) {
    var n := EstimateDataLength(|x|);
    if |x| == 5 || |x| == 6 || n <= 0 then (t, Dropped)
    else
      var u := Track(t, Peek(x, n, format));
      (u, Checked(Decode(x, n, format, s, W(u.count))))
  }

  // A device starts its count at the first frame; and when a frame fails that
  // is not in run mode it tries once more with rollover 0.
  function DeviceTrack(t: Tracker, initial: Word, ts: Word): Tracker {
    if t.initialized then Track(t, ts) else Tracker(true, ts, initial)
  }

  function DeviceDecode(x: seq<bv8>, n: nat, format: Format, s: Seeds, count: Word): Decoded {
    var r := Decode(x, n, format, s, W(count));
    if r.Invalid? && n < |x| && !RunIdle(x[n]) && count != 0 then Decode(x, n, format, s, W(0)) else r
  }

  function DeviceStep(t: Tracker, initial: Word, x: seq<bv8>, format: Format, s: Seeds): (r: (Tracker, Outcome)) {
    var n := EstimateDataLength(|x|);
    if |x| == 5 || |x| == 6 || n <= 0 then (t, Dropped)
    else
      var u := DeviceTrack(t, initial, Peek(x, n, format));
      (u, Checked(DeviceDecode(x, n, format, s, u.count)))
  }

  // ---- One frame ----

  // What a consumer takes for the timestamp: in a long frame it is the high byte
  // of the timestamp and the last byte of the code.
  function Peeked(f: Sent, s: Seeds): Word {
    if |f.data| <= 2 then Ts(f.p) else I(Words.Word(Hi(W(Ts(f.p))), LastCode(f, s)))
  }

  function LastCode(f: Sent, s: Seeds): bv8 {
    B2(LongS5(Complement(f.data), Le16(W(Ts(f.p))), f.mode, s.s5, W(Roll(f.p))))
  }

  lemma SentRead(f: Sent, s: Seeds)
    requires SomeData(f)
    ensures EstimateDataLength(|OnWire(f, s)|) == |f.data| && |OnWire(f, s)| == WireSize(|f.data|, Extended)
    ensures Peek(OnWire(f, s), |f.data|, Extended) == Peeked(f, s)
  {
    hide Encode, I, W, ExtractTimestamp, LongS5, Complement, Le16, Hi, B2, Words.Word;
    RoundTrip(FrameOf(f), Extended, s, W(Roll(f.p)));
    EstimateExact(|f.data|, |OnWire(f, s)|, Extended);
    if |f.data| <= 2 {
      PeekIsTimestamp(FrameOf(f), Extended, s, W(Roll(f.p)));
      WordsMatch(Ts(f.p));
    } else {
      PeekIsLate(FrameOf(f), s, W(Roll(f.p)));
    }
  }

  lemma SentTaken(f: Sent, s: Seeds, count: Word)
    ensures count == Roll(f.p) ==> Decode(OnWire(f, s), |f.data|, Extended, s, W(count)) == Valid(FrameOf(f))
    ensures Decode(OnWire(f, s), |f.data|, Extended, s, W(count)).Valid? <==> count == Roll(f.p)
  {
    hide Encode, Decode, W;
    RolloverExact(FrameOf(f), s, W(Roll(f.p)), W(count));
    if W(Roll(f.p)) == W(count) { WInjective(Roll(f.p), count); }
  }

  // The frame is taken exactly if the count behind its peek is its own.
  lemma ScannerFrame(t: Tracker, f: Sent, s: Seeds)
    requires SomeData(f)
    ensures var r := ScannerStep(t, OnWire(f, s), Extended, s);
      r.0 == Track(t, Peeked(f, s)) && r.1.Checked? &&
      (if r.0.count == Roll(f.p) then r.1.result == Valid(FrameOf(f)) else r.1.result.Invalid?)
  {
    hide OnWire, Decode, W, Peek, Peeked, Track, FrameOf, EstimateDataLength;
    SentRead(f, s);
    SentTaken(f, s, Track(t, Peeked(f, s)).count);
  }

  lemma ModeThere(f: Frame, format: Format, s: Seeds, r: bv16)
    ensures |f.data| < |Encode(f, format, s, r)| && Encode(f, format, s, r)[|f.data|] == f.mode
  {
    hide ExtendedShort, ExtendedLong, BaseShort, BaseLong;
    FieldsCarry(f, format, s, r);
  }

  lemma ModeOnWire(f: Sent, s: Seeds)
    ensures |f.data| < |OnWire(f, s)| && OnWire(f, s)[|f.data|] == f.mode
  {
    hide Encode, W;
    ModeThere(FrameOf(f), Extended, s, W(Roll(f.p)));
  }

  // A device's second attempt also takes an idle frame of rollover 0.
  predicate TakenUnder(f: Sent, count: Word) { count == Roll(f.p) || (!RunIdle(f.mode) && Roll(f.p) == 0) }

  lemma DeviceFrame(t: Tracker, initial: Word, f: Sent, s: Seeds)
    requires SomeData(f)
    ensures var r := DeviceStep(t, initial, OnWire(f, s), Extended, s);
      r.0 == DeviceTrack(t, initial, Peeked(f, s)) && r.1.Checked? &&
      (if TakenUnder(f, r.0.count) then r.1.result == Valid(FrameOf(f)) else r.1.result.Invalid?)
  {
    hide OnWire, Decode, W, Peek, Peeked, DeviceTrack, FrameOf, RunIdle, EstimateDataLength;
    var count := DeviceTrack(t, initial, Peeked(f, s)).count;
    SentRead(f, s);
    SentTaken(f, s, count);
    SentTaken(f, s, 0);
    ModeOnWire(f, s);
  }

  // ---- Either format, any payload ----

  predicate SomeFrame(f: Frame) { 1 <= |f.data| <= 250 }

  // A frame is told from its bytes, whatever codes stand beside them.
  lemma SameBytes(f: Frame, g: Frame, format: Format, s: Seeds, r: bv16, r': bv16)
    requires |f.data| == |g.data| && Encode(f, format, s, r) == Encode(g, format, s, r')
    ensures f == g
  {
    hide BaseShort, BaseLong, ExtendedShort, ExtendedLong, Join, Le16, Read16;
    JoinInjective(FieldsOf(f, format, s, r), FieldsOf(g, format, s, r'));
    FieldsCarry(f, format, s, r);
    FieldsCarry(g, format, s, r');
    Read16Le16(f.ts);
    Read16Le16(g.ts);
  }

  // Decoding a payload of the size of its data is recognising an encoded frame.
  lemma WholeExact(x: seq<bv8>, n: nat, format: Format, s: Seeds, count: bv16, f: Frame)
    requires |x| == WireSize(n, format)
    ensures Decode(x, n, format, s, count) == Valid(f) <==> |f.data| == n && x == Encode(f, format, s, count)
  {
    hide Decode, FieldsOf, Join;
    AcceptsExactly(x, n, format, s, count, f);
    if |f.data| == n && Encode(f, format, s, count) <= x { assert x[..|x|] == x; }
  }

  // What the scanner reports is what was encoded, in the connection's format and
  // under the count it holds then, and nothing else is reported.
  lemma ScannerExact(t: Tracker, x: seq<bv8>, format: Format, s: Seeds, f: Frame)
    ensures var r := ScannerStep(t, x, format, s);
      r.1 == Checked(Valid(f)) <==> SomeFrame(f) && x == Encode(f, format, s, W(r.0.count))
  {
    hide Decode, Encode, W, Peek, Track;
    var n := EstimateDataLength(|x|);
    var r := ScannerStep(t, x, format, s);
    SizeExact(x, format, |f.data|);
    if n > 0 { WholeExact(x, n, format, s, W(r.0.count), f); }
    EncodedSize(f, format, s, W(r.0.count));
  }

  lemma EncodedSize(f: Frame, format: Format, s: Seeds, r: bv16)
    ensures |Encode(f, format, s, r)| == WireSize(|f.data|, format)
  {}

  lemma SizeExact(x: seq<bv8>, format: Format, m: nat)
    ensures var n := EstimateDataLength(|x|);
      (n > 0 ==> 1 <= n <= 250 && |x| == WireSize(n, format) && |x| != 5 && |x| != 6) &&
      (1 <= m <= 250 && |x| == WireSize(m, format) ==> n == m)
  {}

  // A device reports a frame also if it is idle and was encoded under rollover 0.
  lemma DeviceExact(t: Tracker, initial: Word, x: seq<bv8>, format: Format, s: Seeds, f: Frame)
    ensures var r := DeviceStep(t, initial, x, format, s);
      r.1 == Checked(Valid(f)) <==>
      SomeFrame(f) &&
      (x == Encode(f, format, s, W(r.0.count)) || (!RunIdle(f.mode) && x == Encode(f, format, s, W(0))))
  {
    hide Decode, Encode, W, Peek, DeviceTrack, RunIdle;
    var n := EstimateDataLength(|x|);
    var r := DeviceStep(t, initial, x, format, s);
    SizeExact(x, format, |f.data|);
    EncodedSize(f, format, s, W(r.0.count));
    EncodedSize(f, format, s, W(0));
    if n > 0 {
      WholeExact(x, n, format, s, W(r.0.count), f);
      WholeExact(x, n, format, s, W(0), f);
      if x == Encode(f, format, s, W(0)) { ModeThere(f, format, s, W(0)); }
      var first := Decode(x, n, format, s, W(r.0.count));
      if first.Valid? {
        WholeExact(x, n, format, s, W(r.0.count), first.frame);
        if x == Encode(f, format, s, W(0)) && n == |f.data| {
          SameBytes(first.frame, f, format, s, W(r.0.count), W(0));
        }
      }
      var second := Decode(x, n, format, s, W(0));
      if second == Valid(f) { ModeThere(f, format, s, W(0)); }
    }
  }

  // Base frames carry their timestamp where it is looked for and no count, so both
  // consumers take every one, from any state.
  lemma BaseTaken(t: Tracker, initial: Word, f: Frame, s: Seeds, r: bv16)
    requires SomeFrame(f)
    ensures ScannerStep(t, Encode(f, Base, s, r), Base, s) == (Track(t, I(f.ts)), Checked(Valid(f)))
    ensures DeviceStep(t, initial, Encode(f, Base, s, r), Base, s) ==
      (DeviceTrack(t, initial, I(f.ts)), Checked(Valid(f)))
  {
    hide Encode, W, I, ExtractTimestamp, Track, DeviceTrack, Decode;
    var x := Encode(f, Base, s, r);
    SizeExact(x, Base, |f.data|);
    EncodedSize(f, Base, s, r);
    PeekIsTimestamp(f, Base, s, r);
    BaseIgnoresCount(f, s, r, W(Track(t, I(f.ts)).count));
    BaseIgnoresCount(f, s, r, W(DeviceTrack(t, initial, I(f.ts)).count));
  }

  lemma BaseIgnoresCount(f: Frame, s: Seeds, r: bv16, r': bv16)
    ensures Decode(Encode(f, Base, s, r), |f.data|, Base, s, r') == Valid(f)
  {
    hide Decode, BaseShort, BaseLong, Join;
    assert Encode(f, Base, s, r) == Encode(f, Base, s, r');
    RoundTrip(f, Base, s, r');
  }

  // ---- Whole runs ----

  function Positions(fs: seq<Sent>): (r: seq<nat>)
    ensures |r| == |fs| && forall i :: 0 <= i < |fs| ==> r[i] == fs[i].p
  {
    seq(|fs|, i requires 0 <= i < |fs| => fs[i].p)
  }

  function ScannerRun(t: Tracker, fs: seq<Sent>, s: Seeds): (r: seq<Outcome>)
    ensures |r| == |fs|
    decreases |fs|
  {
    if fs == [] then []
    else
      var r := ScannerStep(t, OnWire(fs[0], s), Extended, s);
      [r.1] + ScannerRun(r.0, fs[1..], s)
  }

  function DeviceRun(t: Tracker, initial: Word, fs: seq<Sent>, s: Seeds): (r: seq<Outcome>)
    ensures |r| == |fs|
    decreases |fs|
  {
    if fs == [] then []
    else
      var r := DeviceStep(t, initial, OnWire(fs[0], s), Extended, s);
      [r.1] + DeviceRun(r.0, initial, fs[1..], s)
  }

  // What a consumer takes for the timestamps of a run, and the wraps it sees in
  // them.
  function Peeks(fs: seq<Sent>, s: Seeds): (r: seq<Word>)
    ensures |r| == |fs| && forall i :: 0 <= i < |fs| ==> r[i] == Peeked(fs[i], s)
  {
    seq(|fs|, i requires 0 <= i < |fs| => Peeked(fs[i], s))
  }

  function Wraps(last: Word, peeks: seq<Word>): nat
    decreases |peeks|
  {
    if peeks == [] then 0
    else (if Wrapped(last, peeks[0]) then 1 else 0) + Wraps(peeks[0], peeks[1..])
  }

  // A consumer that has seen no frame sees no wrap in its first.
  function WrapsSeen(t: Tracker, peeks: seq<Word>): nat {
    if t.initialized then Wraps(t.last, peeks)
    else if peeks == [] then 0
    else Wraps(peeks[0], peeks[1..])
  }

  lemma PeeksStep(fs: seq<Sent>, s: Seeds, i: nat)
    requires 0 < i < |fs|
    ensures Peeks(fs, s)[..i + 1][0] == Peeked(fs[0], s) && Peeks(fs, s)[..i + 1][1..] == Peeks(fs[1..], s)[..i]
  {
    hide Peeked;
  }

  // Tracking one peek counts one step of the wraps.
  lemma CountStep(t: Tracker, initial: Word, peeks: seq<Word>)
    requires |peeks| > 0
    ensures var u := DeviceTrack(t, initial, peeks[0]);
      Add(u.count, WrapsSeen(u, peeks[1..])) == Add(CountFrom(t, initial), WrapsSeen(t, peeks)) &&
      (|peeks| == 1 ==> Add(CountFrom(t, initial), WrapsSeen(t, peeks)) == u.count)
  {
    hide Wrapped;
    OneMore(CountFrom(t, initial), Wraps(peeks[0], peeks[1..]));
  }

  lemma FirstPeek(fs: seq<Sent>, s: Seeds)
    requires fs != []
    ensures Peeks(fs, s)[..1] == [Peeked(fs[0], s)]
  {
    hide Peeked;
  }

  lemma OneMore(a: Word, n: nat)
    ensures Add(Add(a, 1), n) == Add(a, n + 1) && Add(a, 0) == a
  {}

  function CountFrom(t: Tracker, initial: Word): Word { if t.initialized then t.count else initial }

  // Over any run of frames with any data, whatever was lost between them: a frame
  // is taken exactly if the wraps seen in the peeks up to it make up the rollovers
  // up to it.
  lemma {:induction false} ScannerRunExact(t: Tracker, fs: seq<Sent>, s: Seeds, i: nat)
    requires i < |fs| && forall f | f in fs :: SomeData(f)
    ensures ScannerRun(t, fs, s)[i].Checked?
    ensures
      if Add(t.count, WrapsSeen(t, Peeks(fs, s)[..i + 1])) == Roll(fs[i].p)
      then ScannerRun(t, fs, s)[i].result == Valid(FrameOf(fs[i]))
      else ScannerRun(t, fs, s)[i].result.Invalid?
    decreases |fs|
  {
    hide OnWire, ScannerStep, FrameOf, Peeked, Roll, SomeData, WrapsSeen, Add;
    assert fs[0] in fs;
    ScannerFrame(t, fs[0], s);
    CountStep(t, t.count, Peeks(fs, s)[..i + 1]);
    if i == 0 {
      FirstPeek(fs, s);
    } else {
      ScannerRunExact(Track(t, Peeked(fs[0], s)), fs[1..], s, i - 1);
      PeeksStep(fs, s, i);
    }
  }

  lemma {:induction false} DeviceRunExact(t: Tracker, initial: Word, fs: seq<Sent>, s: Seeds, i: nat)
    requires i < |fs| && forall f | f in fs :: SomeData(f)
    ensures DeviceRun(t, initial, fs, s)[i].Checked?
    ensures
      if TakenUnder(fs[i], Add(CountFrom(t, initial), WrapsSeen(t, Peeks(fs, s)[..i + 1])))
      then DeviceRun(t, initial, fs, s)[i].result == Valid(FrameOf(fs[i]))
      else DeviceRun(t, initial, fs, s)[i].result.Invalid?
    decreases |fs|
  {
    hide OnWire, DeviceStep, FrameOf, Peeked, TakenUnder, SomeData, WrapsSeen, Add;
    assert fs[0] in fs;
    DeviceFrame(t, initial, fs[0], s);
    CountStep(t, initial, Peeks(fs, s)[..i + 1]);
    if i == 0 {
      FirstPeek(fs, s);
    } else {
      DeviceRunExact(DeviceTrack(t, initial, Peeked(fs[0], s)), initial, fs[1..], s, i - 1);
      PeeksStep(fs, s, i);
    }
  }

  // ---- Runs of short frames ----

  lemma WrapIsRollover(p: nat, q: nat)
    requires Tells(p, q)
    ensures Roll(q) == if Wrapped(Ts(p), Ts(q)) then Add(Roll(p), 1) else Roll(p)
  {
    Carry(p, q - p);
  }

  lemma AddKeepsApart(a: Word, b: Word, n: nat)
    ensures Add(a, n) == Add(b, n) <==> a == b
  {}

  // In short frames the peeks are the timestamps. As long as the frames are never
  // too far apart, the wraps seen are the rollovers.
  lemma {:induction false} WrapsAreRollovers(p: nat, fs: seq<Sent>, s: Seeds, i: nat)
    requires Close(p, Positions(fs)) && i < |fs| && forall f | f in fs :: ShortData(f)
    ensures Add(Roll(p), Wraps(Ts(p), Peeks(fs, s)[..i + 1])) == Roll(fs[i].p)
    decreases |fs|
  {
    hide Tells, Wrapped, Roll, Ts, Add, LastCode, W, I;
    var f, peeks := fs[0], Peeks(fs, s)[..i + 1];
    assert Positions(fs)[0] == f.p && Positions(fs)[1..] == Positions(fs[1..]);
    assert f in fs && peeks[0] == Ts(f.p);
    WrapIsRollover(p, f.p);
    OneMore(Roll(p), Wraps(Ts(f.p), peeks[1..]));
    if i == 0 {
      assert peeks[1..] == [];
      OneMore(Roll(f.p), 0);
    } else {
      WrapsAreRollovers(f.p, fs[1..], s, i - 1);
      PeeksStep(fs, s, i);
    }
  }

  lemma ShortIsSome(fs: seq<Sent>)
    requires forall f | f in fs :: ShortData(f)
    ensures forall f | f in fs :: SomeData(f)
  {}

  // So the scanner takes every one if its count was right at the start, and none
  // if it was not.
  lemma ScannerRunClose(t: Tracker, p: nat, fs: seq<Sent>, s: Seeds, i: nat)
    requires At(t, p) && Close(p, Positions(fs)) && i < |fs| && forall f | f in fs :: ShortData(f)
    ensures ScannerRun(t, fs, s)[i].Checked?
    ensures if t.count == Roll(p) then ScannerRun(t, fs, s)[i].result == Valid(FrameOf(fs[i]))
      else ScannerRun(t, fs, s)[i].result.Invalid?
  {
    hide ScannerRun, FrameOf, Positions, Close, Wraps, ShortData, Add, Roll, Ts;
    ShortIsSome(fs);
    AddKeepsApart(t.count, Roll(p), Wraps(t.last, Peeks(fs, s)[..i + 1]));
    ScannerRunExact(t, fs, s, i);
    WrapsAreRollovers(p, fs, s, i);
  }

  // The same for a device, up to its second attempt.
  lemma DeviceRunClose(t: Tracker, initial: Word, p: nat, fs: seq<Sent>, s: Seeds, i: nat)
    requires At(t, p) && Close(p, Positions(fs)) && i < |fs| && forall f | f in fs :: ShortData(f)
    ensures DeviceRun(t, initial, fs, s)[i].Checked?
    ensures
      if t.count == Roll(p) || (!RunIdle(fs[i].mode) && Roll(fs[i].p) == 0)
      then DeviceRun(t, initial, fs, s)[i].result == Valid(FrameOf(fs[i]))
      else DeviceRun(t, initial, fs, s)[i].result.Invalid?
  {
    hide DeviceRun, FrameOf, Positions, Close, Wraps, ShortData, RunIdle, Add, Roll, Ts;
    ShortIsSome(fs);
    AddKeepsApart(t.count, Roll(p), Wraps(t.last, Peeks(fs, s)[..i + 1]));
    DeviceRunExact(t, initial, fs, s, i);
    WrapsAreRollovers(p, fs, s, i);
  }

  // The frames of a schedule, sent 390 ticks apart, some of them lost.
  predicate SentOn(fs: seq<Sent>, p: nat, fates: seq<bool>) { Positions(fs) == Received(p + TICKS, TICKS, fates) }

  // With at most 125 frames lost in a row, a device whose count was right at
  // one frame takes every later frame it receives.
  lemma DeviceTakesAll(t: Tracker, initial: Word, p: nat, fates: seq<bool>, fs: seq<Sent>, s: Seeds, i: nat)
    requires At(t, p) && t.count == Roll(p) && LossAtMost(fates, 0, 125) && SentOn(fs, p, fates)
    requires i < |fs| && forall f | f in fs :: ShortData(f)
    ensures DeviceRun(t, initial, fs, s)[i] == Checked(Valid(FrameOf(fs[i])))
  {
    hide DeviceRun, FrameOf, Positions, Received;
    LossKeepsClose(p, 0, fates, TICKS, 125);
    DeviceRunClose(t, initial, p, fs, s, i);
  }
}
