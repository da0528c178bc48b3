// What the safety frame codec promises: a frame is accepted exactly when it is
// what the encoder makes of the fields it carries, an Extended frame answers to
// one rollover count only, and no altered byte passes unseen.
module FrameLaws {
  import opened Words
  import opened Crc
  import opened SafetyCrc
  import opened CrcLaws
  import opened SafetyFrame

  // ---- Splitting and joining ----

  lemma ShortJoined(w: Fields, rest: seq<bv8>)
    requires Short(w)
    ensures |Join(w)| == |w.data| + 6 && ShortFields(Join(w) + rest, |w.data|) == w
  {
    var n, x := |w.data|, Join(w) + rest;
    assert x[..n] == w.data && x[n + 1..n + 3] == w.a && x[n + 3..n + 5] == w.stamp;
  }

  lemma LongJoined(w: Fields, rest: seq<bv8>)
    requires Long(w)
    ensures |Join(w)| == 2 * |w.data| + 8 && LongFields(Join(w) + rest, |w.data|) == w
  {
    var n, x := |w.data|, Join(w) + rest;
    assert x[..n] == w.data && x[n + 1..n + 3] == w.a && x[n + 3..2 * n + 3] == w.comp;
    assert x[2 * n + 3..2 * n + 5] == w.c && x[2 * n + 5..2 * n + 7] == w.stamp;
  }

  lemma ShortSplit(input: seq<bv8>, n: nat)
    requires |input| >= n + 6
    ensures Join(ShortFields(input, n)) == input[..n + 6]
  {}

  lemma LongSplit(input: seq<bv8>, n: nat)
    requires |input| >= 2 * n + 8
    ensures Join(LongFields(input, n)) == input[..2 * n + 8]
  {}

  // ---- Fields pass the checks exactly when they are the encoder's ----

  lemma WordFieldIs(b: seq<bv8>, v: bv16)
    requires |b| == 2
    ensures Read16(b) == v <==> b == Le16(v)
  {
    hide Read16, Le16;
    Le16Read16(b);
    Read16Le16(v);
  }

  // What is taken is the frame that has these three fields.
  lemma TakenIs(w: Fields, f: Frame)
    requires |w.stamp| == 2
    ensures Taken(w) == Valid(f) <==> w.data == f.data && w.mode == f.mode && w.stamp == Le16(f.ts)
  {
    hide Read16, Le16;
    WordFieldIs(w.stamp, f.ts);
  }

  lemma BaseShortExact(w: Fields, s: Seeds, f: Frame)
    requires Short(w)
    ensures CheckBaseShort(w, s) == Valid(f) <==> w == BaseShort(f, s)
  {
    hide DataS1, ComplementS2, StampS1, Le16, Taken;
    TakenIs(w, f);
    assert w.a == [w.a[0], w.a[1]];
  }

  lemma BaseLongExact(w: Fields, s: Seeds, f: Frame)
    requires Long(w)
    ensures CheckBaseLong(w, s) == Valid(f) <==> w == BaseLong(f, s)
  {
    hide DataS3, ComplementS3, StampS1, Le16, Read16, Complement, Taken;
    TakenIs(w, f);
    WordFieldIs(w.a, DataS3(w.data, w.mode, s.s3));
    WordFieldIs(w.c, ComplementS3(w.comp, w.mode, s.s3));
  }

  lemma CodeIs(a: seq<bv8>, t: bv8, c: bv32)
    requires |a| == 2
    ensures Word24(Read16(a), t) == Mask24(c) <==> a == [B0(c), B1(c)] && t == B2(c)
  {
    hide Word, Word24, Mask24, B0, B1, B2;
    Word24Is(a[0], a[1], t, c);
  }

  lemma ExtendedShortExact(w: Fields, s: Seeds, rollover: bv16, f: Frame)
    requires Short(w)
    ensures CheckExtendedShort(w, s, rollover) == Valid(f) <==> w == ExtendedShort(f, s, rollover)
  {
    hide ShortS5, Read16, Le16, Word24, Mask24, B0, B1, B2, Taken;
    TakenIs(w, f);
    CodeIs(w.a, w.t, ShortS5(w.data, w.stamp, w.mode, s.s5, rollover));
  }

  lemma ExtendedLongExact(w: Fields, s: Seeds, rollover: bv16, f: Frame)
    requires Long(w)
    ensures CheckExtendedLong(w, s, rollover) == Valid(f) <==> w == ExtendedLong(f, s, rollover)
  {
    hide DataS3, LongS5, RolloverSeedS3, Read16, Le16, Word24, Mask24, B0, B1, B2, Complement, Taken;
    TakenIs(w, f);
    WordFieldIs(w.a, DataS3(w.data, w.mode, RolloverSeedS3(rollover, s.s3)));
    CodeIs(w.c, w.t, LongS5(w.comp, w.stamp, w.mode, s.s5, rollover));
  }

  // Acceptance is the exact inverse of encoding, for every input, length,
  // format, seed and rollover count.
  lemma AcceptsExactly(input: seq<bv8>, n: nat, format: Format, s: Seeds, rollover: bv16, f: Frame)
    ensures Decode(input, n, format, s, rollover) == Valid(f) <==>
      |f.data| == n && Encode(f, format, s, rollover) <= input
  {
    hide CheckBaseShort, CheckBaseLong, CheckExtendedShort, CheckExtendedLong;
    hide DataS1, ComplementS2, StampS1, DataS3, ComplementS3, ShortS5, LongS5, RolloverSeedS3, Le16, B0, B1, B2, Join;
    var made := FieldsOf(f, format, s, rollover);
    if WireSize(n, format) <= |input| {
      if |f.data| == n && Join(made) <= input {
        Rejoined(input, made);
      }
      if n <= 2 {
        var w := ShortFields(input, n);
        ShortSplit(input, n);
        BaseShortExact(w, s, f);
        ExtendedShortExact(w, s, rollover, f);
      } else {
        var w := LongFields(input, n);
        LongSplit(input, n);
        BaseLongExact(w, s, f);
        ExtendedLongExact(w, s, rollover, f);
      }
    }
  }

  lemma Rejoined(input: seq<bv8>, w: Fields)
    requires Join(w) <= input && (Short(w) || Long(w))
    ensures Short(w) ==> |Join(w)| == |w.data| + 6 && ShortFields(input, |w.data|) == w
    ensures Long(w) ==> |Join(w)| == 2 * |w.data| + 8 && LongFields(input, |w.data|) == w
  {
    hide Join;
    assert input == Join(w) + input[|Join(w)|..];
    if Short(w) { ShortJoined(w, input[|Join(w)|..]); }
    if Long(w) { LongJoined(w, input[|Join(w)|..]); }
  }

  // ---- One rollover count per Extended frame ----

  lemma SameCode(m: seq<bv8>, n: seq<bv8>, c: bv32, d: bv32)
    requires B0(S5Raw(m, c)) == B0(S5Raw(n, d)) && B1(S5Raw(m, c)) == B1(S5Raw(n, d)) &&
      B2(S5Raw(m, c)) == B2(S5Raw(n, d))
    ensures S5Raw(m, c) == S5Raw(n, d)
  {
    hide *;
    Word24OfBytes(S5Raw(m, c));
    Word24OfBytes(S5Raw(n, d));
    S5RawFits(m, c);
    S5RawFits(n, d);
  }

  lemma RolloverSeen(m: seq<bv8>, seed: bv32, r: bv16, r': bv16)
    requires S5Raw(m, RolloverSeedS5(r, seed)) == S5Raw(m, RolloverSeedS5(r', seed))
    ensures r == r'
  {
    hide S5, Le16, Mask24;
    S5SeedSeen(m, RolloverSeedS5(r, seed), RolloverSeedS5(r', seed));
    S5RawFits(Le16(r), seed);
    S5RawFits(Le16(r'), seed);
    RolloverSeedS5Injective(r, r', seed);
  }

  // An Extended frame built with one rollover count is taken under that count
  // and under no other.
  lemma RolloverExact(f: Frame, s: Seeds, r: bv16, r': bv16)
    ensures Decode(Encode(f, Extended, s, r), |f.data|, Extended, s, r').Valid? <==> r == r'
    ensures Decode(Encode(f, Extended, s, r), |f.data|, Extended, s, r) == Valid(f)
  {
    hide *;
    var x := Encode(f, Extended, s, r);
    AcceptsExactly(x, |f.data|, Extended, s, r, f);
    var got := Decode(x, |f.data|, Extended, s, r');
    if got.Valid? {
      AcceptsExactly(x, |f.data|, Extended, s, r', got.frame);
      SameFrameSameRollover(f, got.frame, s, r, r');
    }
  }

  lemma JoinInjective(w: Fields, w': Fields)
    requires (Short(w) && Short(w')) || (Long(w) && Long(w'))
    requires |w.data| == |w'.data| && Join(w) == Join(w')
    ensures w == w'
  {
    hide Join;
    Rejoined(Join(w), w);
    Rejoined(Join(w), w');
  }

  lemma SameShortSameRollover(f: Frame, f': Frame, s: Seeds, r: bv16, r': bv16)
    requires ExtendedShort(f, s, r) == ExtendedShort(f', s, r')
    ensures r == r'
  {
    hide ShortS5, Le16, B0, B1, B2;
    ShortCodeRollover(f.data, Le16(f.ts), f.mode, s.s5, r, r');
  }

  lemma SameLongSameRollover(f: Frame, f': Frame, s: Seeds, r: bv16, r': bv16)
    requires ExtendedLong(f, s, r) == ExtendedLong(f', s, r')
    ensures r == r'
  {
    hide LongS5, DataS3, RolloverSeedS3, Le16, B0, B1, B2;
    LongCodeRollover(Complement(f.data), Le16(f.ts), f.mode, s.s5, r, r');
  }

  lemma SameFrameSameRollover(f: Frame, f': Frame, s: Seeds, r: bv16, r': bv16)
    requires |f.data| == |f'.data| && Encode(f, Extended, s, r) == Encode(f', Extended, s, r')
    ensures r == r'
  {
    hide ExtendedShort, ExtendedLong, Join;
    JoinInjective(FieldsOf(f, Extended, s, r), FieldsOf(f', Extended, s, r'));
    if |f.data| <= 2 {
      SameShortSameRollover(f, f', s, r, r');
    } else {
      SameLongSameRollover(f, f', s, r, r');
    }
  }

  lemma ShortCodeRollover(data: seq<bv8>, stamp: seq<bv8>, mode: bv8, s5: bv32, r: bv16, r': bv16)
    requires B0(ShortS5(data, stamp, mode, s5, r)) == B0(ShortS5(data, stamp, mode, s5, r'))
    requires B1(ShortS5(data, stamp, mode, s5, r)) == B1(ShortS5(data, stamp, mode, s5, r'))
    requires B2(ShortS5(data, stamp, mode, s5, r)) == B2(ShortS5(data, stamp, mode, s5, r'))
    ensures r == r'
  {
    hide B0, B1, B2, S5Raw, RolloverSeedS5, DataMask;
    var m := [DataMask(mode)] + data + stamp;
    SameCode(m, m, RolloverSeedS5(r, s5), RolloverSeedS5(r', s5));
    RolloverSeen(m, s5, r, r');
  }

  lemma LongCodeRollover(comp: seq<bv8>, stamp: seq<bv8>, mode: bv8, s5: bv32, r: bv16, r': bv16)
    requires B0(LongS5(comp, stamp, mode, s5, r)) == B0(LongS5(comp, stamp, mode, s5, r'))
    requires B1(LongS5(comp, stamp, mode, s5, r)) == B1(LongS5(comp, stamp, mode, s5, r'))
    requires B2(LongS5(comp, stamp, mode, s5, r)) == B2(LongS5(comp, stamp, mode, s5, r'))
    ensures r == r'
  {
    hide B0, B1, B2, S5Raw, RolloverSeedS5, StampMask;
    var m := [StampMask(mode)] + comp + stamp;
    SameCode(m, m, RolloverSeedS5(r, s5), RolloverSeedS5(r', s5));
    RolloverSeen(m, s5, r, r');
  }

  // ---- One altered byte ----

  // The fields of a frame of which byte k is replaced.
  function ShortAltered(w: Fields, k: nat, v: bv8): (r: Fields)
    requires Short(w) && k < |w.data| + 6
    ensures Short(r)
  {
    var n := |w.data|;
    if k < n then w.(data := w.data[k := v])
    else if k == n then w.(mode := v)
    else if k < n + 3 then w.(a := w.a[k - n - 1 := v])
    else if k < n + 5 then w.(stamp := w.stamp[k - n - 3 := v])
    else w.(t := v)
  }

  function LongAltered(w: Fields, k: nat, v: bv8): (r: Fields)
    requires Long(w) && k < 2 * |w.data| + 8
    ensures Long(r)
  {
    var n := |w.data|;
    if k < n then w.(data := w.data[k := v])
    else if k == n then w.(mode := v)
    else if k < n + 3 then w.(a := w.a[k - n - 1 := v])
    else if k < 2 * n + 3 then w.(comp := w.comp[k - n - 3 := v])
    else if k < 2 * n + 5 then w.(c := w.c[k - 2 * n - 3 := v])
    else if k < 2 * n + 7 then w.(stamp := w.stamp[k - 2 * n - 5 := v])
    else w.(t := v)
  }

  // Which check notices a change of byte k, by its place; in the mode byte by whether
  // one of the top three bits is among those changed.
  function ShortFault(n: nat, format: Format, k: nat, top: bool): Fault {
    if format == Extended || k < n || (k == n && top) || k == n + 1 then DataCrc
    else if k == n + 2 then ComplementCrc
    else TimestampCrc
  }

  function LongFault(n: nat, format: Format, k: nat, top: bool): Fault {
    if k < n || n + 3 <= k < 2 * n + 3 then DataMismatch
    else if (k == n && top) || n < k < n + 3 then DataCrc
    else if format == Extended || 2 * n + 3 <= k < 2 * n + 5 then ComplementCrc
    else TimestampCrc
  }

  function FaultAt(n: nat, format: Format, k: nat, top: bool): Fault {
    if n <= 2 then ShortFault(n, format, k, top) else LongFault(n, format, k, top)
  }

  lemma SliceAltered(x: seq<bv8>, k: nat, v: bv8, i: nat, j: nat)
    requires k < |x| && i <= j <= |x|
    ensures x[k := v][i..j] == if i <= k < j then x[i..j][k - i := v] else x[i..j]
  {}

  lemma ShortAlteredBytes(x: seq<bv8>, n: nat, k: nat, v: bv8)
    requires k < |x| == n + 6
    ensures ShortFields(x[k := v], n) == ShortAltered(ShortFields(x, n), k, v)
  {
    SliceAltered(x, k, v, 0, n);
    SliceAltered(x, k, v, n + 1, n + 3);
    SliceAltered(x, k, v, n + 3, n + 5);
  }

  lemma LongAlteredBytes(x: seq<bv8>, n: nat, k: nat, v: bv8)
    requires k < |x| == 2 * n + 8
    ensures LongFields(x[k := v], n) == LongAltered(LongFields(x, n), k, v)
  {
    var y := x[k := v];
    assert y[..n] == if k < n then x[..n][k := v] else x[..n] by { SliceAltered(x, k, v, 0, n); }
    SliceAltered(x, k, v, n + 1, n + 3);
    SliceAltered(x, k, v, n + 3, 2 * n + 3);
    SliceAltered(x, k, v, 2 * n + 3, 2 * n + 5);
    SliceAltered(x, k, v, 2 * n + 5, 2 * n + 7);
  }

  lemma MaskSeen(mode: bv8, v: bv8)
    requires v != mode
    ensures DataMask(v) != DataMask(mode) || StampMask(v) != StampMask(mode)
  {}

  // What a change of the low mode bits leaves alone.
  lemma LowBitsUnseen(data: seq<bv8>, mode: bv8, v: bv8, s: Seeds, seed: bv16)
    requires DataMask(v) == DataMask(mode)
    ensures DataS1(data, v, s.s1) == DataS1(data, mode, s.s1)
    ensures ComplementS2(data, v, s.s1) == ComplementS2(data, mode, s.s1)
    ensures DataS3(data, v, seed) == DataS3(data, mode, seed)
    ensures ComplementS3(data, v, seed) == ComplementS3(data, mode, seed)
  {
    hide S1, S2, S3, S3Byte, Complement;
    assert ComplementMask(v) == ComplementMask(mode);
  }

  lemma DataS1Seen(data: seq<bv8>, j: nat, v: bv8, mode: bv8, s1: bv8)
    requires j < |data| && v != data[j]
    ensures DataS1(data[j := v], mode, s1) != DataS1(data, mode, s1)
  {
    hide S1, DataMask;
    S1ByteSeen(data, j, v, S1([DataMask(mode)], s1));
  }

  // A byte replaced in front of a message is still seen at its end.
  lemma S1Behind(msg: seq<bv8>, a: bv8, b: bv8, seed: bv8)
    requires a != b
    ensures S1(msg, S1([a], seed)) != S1(msg, S1([b], seed))
  {
    hide S1;
    assert [b][0 := a] == [a];
    S1ByteSeen([b], 0, a, seed);
    if S1(msg, S1([a], seed)) == S1(msg, S1([b], seed)) {
      S1SeedSeen(msg, S1([a], seed), S1([b], seed));
    }
  }

  lemma S3Behind(msg: seq<bv8>, a: bv8, b: bv8, seed: bv16)
    requires a != b
    ensures S3(msg, S3Byte(a, seed)) != S3(msg, S3Byte(b, seed))
  {
    hide S3, S3Byte;
    S3One(a, seed);
    S3One(b, seed);
    assert [b][0 := a] == [a];
    S3ByteSeen([b], 0, a, seed);
    if S3(msg, S3Byte(a, seed)) == S3(msg, S3Byte(b, seed)) {
      S3SeedSeen(msg, S3Byte(a, seed), S3Byte(b, seed));
    }
  }

  lemma S3One(a: bv8, seed: bv16)
    ensures S3([a], seed) == S3Byte(a, seed)
  {
    hide S3Byte;
    assert [a][1..] == [];
  }

  lemma DataS1Mode(data: seq<bv8>, mode: bv8, v: bv8, s1: bv8)
    requires DataMask(v) != DataMask(mode)
    ensures DataS1(data, v, s1) != DataS1(data, mode, s1)
  {
    hide S1, DataMask;
    S1Behind(data, DataMask(v), DataMask(mode), s1);
  }

  lemma StampS1Mode(stamp: seq<bv8>, mode: bv8, v: bv8, s1: bv8)
    requires StampMask(v) != StampMask(mode)
    ensures StampS1(stamp, v, s1) != StampS1(stamp, mode, s1)
  {
    hide S1, StampMask;
    S1Behind(stamp, StampMask(v), StampMask(mode), s1);
  }

  lemma StampS1Seen(stamp: seq<bv8>, j: nat, v: bv8, mode: bv8, s1: bv8)
    requires j < |stamp| && v != stamp[j]
    ensures StampS1(stamp[j := v], mode, s1) != StampS1(stamp, mode, s1)
  {
    hide S1, StampMask;
    S1ByteSeen(stamp, j, v, S1([StampMask(mode)], s1));
  }

  lemma DataS3Mode(data: seq<bv8>, mode: bv8, v: bv8, s3: bv16)
    requires DataMask(v) != DataMask(mode)
    ensures DataS3(data, v, s3) != DataS3(data, mode, s3)
  {
    hide S3, S3Byte, DataMask;
    S3Behind(data, DataMask(v), DataMask(mode), s3);
  }

  lemma ComplementSeen(data: seq<bv8>, j: nat, v: bv8)
    requires j < |data| && v != data[j]
    ensures Complement(data[j := v]) != Complement(data)
  {
    hide Flip;
    FlipInjective(v, data[j]);
    assert Complement(data[j := v])[j] == Flip(v);
  }

  lemma FlipInjective(a: bv8, b: bv8)
    requires a != b
    ensures Flip(a) != Flip(b)
  {}

  lemma BaseShortData(w: Fields, w': Fields, s: Seeds, j: nat, v: bv8)
    requires Short(w) && CheckBaseShort(w, s).Valid? && w' != w && j < |w.data|
    requires w' == w.(data := w.data[j := v])
    ensures CheckBaseShort(w', s) == Invalid(DataCrc)
  {
    hide DataS1, StampS1, ComplementS2, DataMask, StampMask, Taken;
    DataS1Seen(w.data, j, v, w.mode, s.s1);
  }

  lemma BaseShortMode(w: Fields, w': Fields, s: Seeds, v: bv8)
    requires Short(w) && CheckBaseShort(w, s).Valid? && w' != w
    requires w' == w.(mode := v)
    ensures CheckBaseShort(w', s) == Invalid(if DataMask(v) != DataMask(w.mode) then DataCrc else TimestampCrc)
  {
    hide DataS1, StampS1, ComplementS2, DataMask, StampMask, Taken;
    MaskSeen(w.mode, v);
    if DataMask(v) != DataMask(w.mode) {
      DataS1Mode(w.data, w.mode, v, s.s1);
    } else {
      LowBitsUnseen(w.data, w.mode, v, s, s.s3);
      StampS1Mode(w.stamp, w.mode, v, s.s1);
    }
  }

  lemma BaseShortStamp(w: Fields, w': Fields, s: Seeds, j: nat, v: bv8)
    requires Short(w) && CheckBaseShort(w, s).Valid? && w' != w && j < 2
    requires w' == w.(stamp := w.stamp[j := v])
    ensures CheckBaseShort(w', s) == Invalid(TimestampCrc)
  {
    hide DataS1, StampS1, ComplementS2, DataMask, StampMask, Taken;
    StampS1Seen(w.stamp, j, v, w.mode, s.s1);
  }

  lemma BaseShortCode(w: Fields, w': Fields, s: Seeds, j: nat, v: bv8)
    requires Short(w) && CheckBaseShort(w, s).Valid? && w' != w && j < 2
    requires w' == w.(a := w.a[j := v])
    ensures CheckBaseShort(w', s) == Invalid(if j == 0 then DataCrc else ComplementCrc)
  {
    hide DataS1, StampS1, ComplementS2, DataMask, StampMask, Taken;
  }

  lemma BaseShortLast(w: Fields, w': Fields, s: Seeds, v: bv8)
    requires Short(w) && CheckBaseShort(w, s).Valid? && w' != w
    requires w' == w.(t := v)
    ensures CheckBaseShort(w', s) == Invalid(TimestampCrc)
  {
    hide DataS1, StampS1, ComplementS2, DataMask, StampMask, Taken;
  }

  // No one altered byte passes in a Base short frame.
  lemma BaseShortSeen(w: Fields, s: Seeds, k: nat, v: bv8)
    requires Short(w) && CheckBaseShort(w, s).Valid? && k < |w.data| + 6 && ShortAltered(w, k, v) != w
    ensures CheckBaseShort(ShortAltered(w, k, v), s) ==
      Invalid(ShortFault(|w.data|, Base, k, DataMask(v) != DataMask(w.mode)))
  {
    hide CheckBaseShort, DataMask;
    var n, w' := |w.data|, ShortAltered(w, k, v);
    if k < n { BaseShortData(w, w', s, k, v); }
    else if k == n { BaseShortMode(w, w', s, v); }
    else if k < n + 3 { BaseShortCode(w, w', s, k - n - 1, v); }
    else if k < n + 5 { BaseShortStamp(w, w', s, k - n - 3, v); }
    else { BaseShortLast(w, w', s, v); }
  }

  lemma Read16Seen(b: seq<bv8>, j: nat, v: bv8)
    requires j < |b| == 2 && v != b[j]
    ensures Read16(b[j := v]) != Read16(b)
  {
    hide Word, Read16, Le16;
    Le16Read16(b);
    Le16Read16(b[j := v]);
    assert b[j := v][j] == v;
  }

  lemma BaseLongData(w: Fields, w': Fields, s: Seeds, j: nat, v: bv8)
    requires Long(w) && CheckBaseLong(w, s).Valid? && w' != w && j < |w.data|
    requires w' == w.(data := w.data[j := v])
    ensures CheckBaseLong(w', s) == Invalid(DataMismatch)
  {
    hide DataS3, StampS1, ComplementS3, Complement, DataMask, StampMask, Read16, Taken;
    ComplementSeen(w.data, j, v);
  }

  lemma BaseLongMode(w: Fields, w': Fields, s: Seeds, v: bv8)
    requires Long(w) && CheckBaseLong(w, s).Valid? && w' != w
    requires w' == w.(mode := v)
    ensures CheckBaseLong(w', s) == Invalid(if DataMask(v) != DataMask(w.mode) then DataCrc else TimestampCrc)
  {
    hide DataS3, StampS1, ComplementS3, Complement, DataMask, StampMask, Read16, Taken;
    MaskSeen(w.mode, v);
    if DataMask(v) != DataMask(w.mode) {
      DataS3Mode(w.data, w.mode, v, s.s3);
    } else {
      LowBitsUnseen(w.data, w.mode, v, s, s.s3);
      LowBitsUnseen(w.comp, w.mode, v, s, s.s3);
      StampS1Mode(w.stamp, w.mode, v, s.s1);
    }
  }

  lemma BaseLongCode(w: Fields, w': Fields, s: Seeds, j: nat, v: bv8)
    requires Long(w) && CheckBaseLong(w, s).Valid? && w' != w && j < 2
    requires w' == w.(a := w.a[j := v])
    ensures CheckBaseLong(w', s) == Invalid(DataCrc)
  {
    hide DataS3, StampS1, ComplementS3, Complement, DataMask, StampMask, Read16, Taken;
    Read16Seen(w.a, j, v);
  }

  lemma BaseLongComplement(w: Fields, w': Fields, s: Seeds, j: nat, v: bv8)
    requires Long(w) && CheckBaseLong(w, s).Valid? && w' != w && j < |w.comp|
    requires w' == w.(comp := w.comp[j := v])
    ensures CheckBaseLong(w', s) == Invalid(DataMismatch)
  {
    hide DataS3, StampS1, ComplementS3, Complement, DataMask, StampMask, Read16, Taken;
  }

  lemma BaseLongComplementCode(w: Fields, w': Fields, s: Seeds, j: nat, v: bv8)
    requires Long(w) && CheckBaseLong(w, s).Valid? && w' != w && j < 2
    requires w' == w.(c := w.c[j := v])
    ensures CheckBaseLong(w', s) == Invalid(ComplementCrc)
  {
    hide DataS3, StampS1, ComplementS3, Complement, DataMask, StampMask, Read16, Taken;
    Read16Seen(w.c, j, v);
  }

  lemma BaseLongStamp(w: Fields, w': Fields, s: Seeds, j: nat, v: bv8)
    requires Long(w) && CheckBaseLong(w, s).Valid? && w' != w && j < 2
    requires w' == w.(stamp := w.stamp[j := v])
    ensures CheckBaseLong(w', s) == Invalid(TimestampCrc)
  {
    hide DataS3, StampS1, ComplementS3, Complement, DataMask, StampMask, Read16, Taken;
    StampS1Seen(w.stamp, j, v, w.mode, s.s1);
  }

  lemma BaseLongLast(w: Fields, w': Fields, s: Seeds, v: bv8)
    requires Long(w) && CheckBaseLong(w, s).Valid? && w' != w
    requires w' == w.(t := v)
    ensures CheckBaseLong(w', s) == Invalid(TimestampCrc)
  {
    hide DataS3, StampS1, ComplementS3, Complement, DataMask, StampMask, Read16, Taken;
  }

  // Nor in a Base long frame.
  lemma BaseLongSeen(w: Fields, s: Seeds, k: nat, v: bv8)
    requires Long(w) && CheckBaseLong(w, s).Valid? && k < 2 * |w.data| + 8 && LongAltered(w, k, v) != w
    ensures CheckBaseLong(LongAltered(w, k, v), s) ==
      Invalid(LongFault(|w.data|, Base, k, DataMask(v) != DataMask(w.mode)))
  {
    hide CheckBaseLong, DataMask;
    var n, w' := |w.data|, LongAltered(w, k, v);
    if k < n { BaseLongData(w, w', s, k, v); }
    else if k == n { BaseLongMode(w, w', s, v); }
    else if k < n + 3 { BaseLongCode(w, w', s, k - n - 1, v); }
    else if k < 2 * n + 3 { BaseLongComplement(w, w', s, k - n - 3, v); }
    else if k < 2 * n + 5 { BaseLongComplementCode(w, w', s, k - 2 * n - 3, v); }
    else if k < 2 * n + 7 { BaseLongStamp(w, w', s, k - 2 * n - 5, v); }
    else { BaseLongLast(w, w', s, v); }
  }

  // ---- Extended ----

  lemma CodeSeen(a: seq<bv8>, t: bv8, a': seq<bv8>, t': bv8, c: bv32)
    requires |a| == |a'| == 2 && (a != a' || t != t')
    requires Word24(Read16(a), t) == Mask24(c)
    ensures Word24(Read16(a'), t') != Mask24(c)
  {
    hide *;
    CodeIs(a, t, c);
    CodeIs(a', t', c);
  }

  // A different message under the same seed, where the code must differ.
  lemma S5MessageSeen(m: seq<bv8>, i: nat, v: bv8, seed: bv32)
    requires i < |m| && v != m[i]
    ensures Mask24(S5Raw(m[i := v], seed)) != Mask24(S5Raw(m, seed))
  {
    hide *;
    S5ByteSeen(m, i, v, seed);
    S5RawFits(m, seed);
    S5RawFits(m[i := v], seed);
  }

  lemma LongS5Mode(comp: seq<bv8>, stamp: seq<bv8>, mode: bv8, v: bv8, s5: bv32, r: bv16)
    requires StampMask(v) != StampMask(mode)
    ensures Mask24(LongS5(comp, stamp, v, s5, r)) != Mask24(LongS5(comp, stamp, mode, s5, r))
  {
    hide S5Raw, RolloverSeedS5, Mask24, StampMask;
    var m := [StampMask(mode)] + comp + stamp;
    assert m[0 := StampMask(v)] == [StampMask(v)] + comp + stamp;
    S5MessageSeen(m, 0, StampMask(v), RolloverSeedS5(r, s5));
  }

  lemma LongS5Stamp(comp: seq<bv8>, stamp: seq<bv8>, j: nat, v: bv8, mode: bv8, s5: bv32, r: bv16)
    requires j < |stamp| && v != stamp[j]
    ensures Mask24(LongS5(comp, stamp[j := v], mode, s5, r)) != Mask24(LongS5(comp, stamp, mode, s5, r))
  {
    hide S5Raw, RolloverSeedS5, Mask24, StampMask;
    var m := [StampMask(mode)] + comp + stamp;
    assert m[1 + |comp| + j := v] == [StampMask(mode)] + comp + stamp[j := v];
    S5MessageSeen(m, 1 + |comp| + j, v, RolloverSeedS5(r, s5));
  }

  lemma ShortS5Data(data: seq<bv8>, j: nat, v: bv8, stamp: seq<bv8>, mode: bv8, s5: bv32, r: bv16)
    requires j < |data| && v != data[j]
    ensures Mask24(ShortS5(data[j := v], stamp, mode, s5, r)) != Mask24(ShortS5(data, stamp, mode, s5, r))
  {
    hide S5Raw, RolloverSeedS5, Mask24, DataMask;
    var m := [DataMask(mode)] + data + stamp;
    assert m[1 + j := v] == [DataMask(mode)] + data[j := v] + stamp;
    S5MessageSeen(m, 1 + j, v, RolloverSeedS5(r, s5));
  }

  lemma ShortS5Stamp(data: seq<bv8>, stamp: seq<bv8>, j: nat, v: bv8, mode: bv8, s5: bv32, r: bv16)
    requires j < |stamp| && v != stamp[j]
    ensures Mask24(ShortS5(data, stamp[j := v], mode, s5, r)) != Mask24(ShortS5(data, stamp, mode, s5, r))
  {
    hide S5Raw, RolloverSeedS5, Mask24, DataMask;
    var m := [DataMask(mode)] + data + stamp;
    assert m[1 + |data| + j := v] == [DataMask(mode)] + data + stamp[j := v];
    S5MessageSeen(m, 1 + |data| + j, v, RolloverSeedS5(r, s5));
  }

  lemma ShortS5Mode(data: seq<bv8>, stamp: seq<bv8>, mode: bv8, v: bv8, s5: bv32, r: bv16)
    ensures Mask24(ShortS5(data, stamp, v, s5, r)) == Mask24(ShortS5(data, stamp, mode, s5, r)) <==>
      DataMask(v) == DataMask(mode)
  {
    hide S5Raw, RolloverSeedS5, Mask24, DataMask;
    var m := [DataMask(mode)] + data + stamp;
    assert m[0 := DataMask(v)] == [DataMask(v)] + data + stamp;
    if DataMask(v) != DataMask(mode) {
      S5MessageSeen(m, 0, DataMask(v), RolloverSeedS5(r, s5));
    }
  }

  lemma ExtendedLongData(w: Fields, w': Fields, s: Seeds, r: bv16, j: nat, v: bv8)
    requires Long(w) && CheckExtendedLong(w, s, r).Valid? && w' != w && j < |w.data|
    requires w' == w.(data := w.data[j := v])
    ensures CheckExtendedLong(w', s, r) == Invalid(DataMismatch)
  {
    hide DataS3, LongS5, Complement, DataMask, StampMask, Read16, Word24, Mask24, RolloverSeedS3, Taken;
    ComplementSeen(w.data, j, v);
  }

  lemma ExtendedLongMode(w: Fields, w': Fields, s: Seeds, r: bv16, v: bv8)
    requires Long(w) && CheckExtendedLong(w, s, r).Valid? && w' != w
    requires w' == w.(mode := v)
    ensures CheckExtendedLong(w', s, r) == Invalid(if DataMask(v) != DataMask(w.mode) then DataCrc else ComplementCrc)
  {
    hide DataS3, LongS5, Complement, DataMask, StampMask, Read16, Word24, Mask24, RolloverSeedS3, Taken;
    MaskSeen(w.mode, v);
    if DataMask(v) != DataMask(w.mode) {
      DataS3Mode(w.data, w.mode, v, RolloverSeedS3(r, s.s3));
    } else {
      LowBitsUnseen(w.data, w.mode, v, s, RolloverSeedS3(r, s.s3));
      LongS5Mode(w.comp, w.stamp, w.mode, v, s.s5, r);
    }
  }

  lemma ExtendedLongCode(w: Fields, w': Fields, s: Seeds, r: bv16, j: nat, v: bv8)
    requires Long(w) && CheckExtendedLong(w, s, r).Valid? && w' != w && j < 2
    requires w' == w.(a := w.a[j := v])
    ensures CheckExtendedLong(w', s, r) == Invalid(DataCrc)
  {
    hide DataS3, LongS5, Complement, DataMask, StampMask, Read16, Word24, Mask24, RolloverSeedS3, Taken;
    Read16Seen(w.a, j, v);
  }

  lemma ExtendedLongComplement(w: Fields, w': Fields, s: Seeds, r: bv16, j: nat, v: bv8)
    requires Long(w) && CheckExtendedLong(w, s, r).Valid? && w' != w && j < |w.comp|
    requires w' == w.(comp := w.comp[j := v])
    ensures CheckExtendedLong(w', s, r) == Invalid(DataMismatch)
  {
    hide DataS3, LongS5, Complement, DataMask, StampMask, Read16, Word24, Mask24, RolloverSeedS3, Taken;
  }

  lemma ExtendedLongComplementCode(w: Fields, w': Fields, s: Seeds, r: bv16, j: nat, v: bv8)
    requires Long(w) && CheckExtendedLong(w, s, r).Valid? && w' != w && j < 2
    requires w' == w.(c := w.c[j := v])
    ensures CheckExtendedLong(w', s, r) == Invalid(ComplementCrc)
  {
    hide DataS3, LongS5, Complement, DataMask, StampMask, Read16, Word24, Mask24, RolloverSeedS3, Taken;
    CodeSeen(w.c, w.t, w'.c, w'.t, LongS5(w.comp, w.stamp, w.mode, s.s5, r));
  }

  lemma ExtendedLongStamp(w: Fields, w': Fields, s: Seeds, r: bv16, j: nat, v: bv8)
    requires Long(w) && CheckExtendedLong(w, s, r).Valid? && w' != w && j < 2
    requires w' == w.(stamp := w.stamp[j := v])
    ensures CheckExtendedLong(w', s, r) == Invalid(ComplementCrc)
  {
    hide DataS3, LongS5, Complement, DataMask, StampMask, Read16, Word24, Mask24, RolloverSeedS3, Taken;
    LongS5Stamp(w.comp, w.stamp, j, v, w.mode, s.s5, r);
  }

  lemma ExtendedLongLast(w: Fields, w': Fields, s: Seeds, r: bv16, v: bv8)
    requires Long(w) && CheckExtendedLong(w, s, r).Valid? && w' != w
    requires w' == w.(t := v)
    ensures CheckExtendedLong(w', s, r) == Invalid(ComplementCrc)
  {
    hide DataS3, LongS5, Complement, DataMask, StampMask, Read16, Word24, Mask24, RolloverSeedS3, Taken;
    CodeSeen(w.c, w.t, w'.c, w'.t, LongS5(w.comp, w.stamp, w.mode, s.s5, r));
  }

  // Nor in an Extended long frame.
  lemma ExtendedLongSeen(w: Fields, s: Seeds, r: bv16, k: nat, v: bv8)
    requires Long(w) && CheckExtendedLong(w, s, r).Valid? && k < 2 * |w.data| + 8 && LongAltered(w, k, v) != w
    ensures CheckExtendedLong(LongAltered(w, k, v), s, r) ==
      Invalid(LongFault(|w.data|, Extended, k, DataMask(v) != DataMask(w.mode)))
  {
    hide CheckExtendedLong, DataMask;
    var n, w' := |w.data|, LongAltered(w, k, v);
    if k < n { ExtendedLongData(w, w', s, r, k, v); }
    else if k == n { ExtendedLongMode(w, w', s, r, v); }
    else if k < n + 3 { ExtendedLongCode(w, w', s, r, k - n - 1, v); }
    else if k < 2 * n + 3 { ExtendedLongComplement(w, w', s, r, k - n - 3, v); }
    else if k < 2 * n + 5 { ExtendedLongComplementCode(w, w', s, r, k - 2 * n - 3, v); }
    else if k < 2 * n + 7 { ExtendedLongStamp(w, w', s, r, k - 2 * n - 5, v); }
    else { ExtendedLongLast(w, w', s, r, v); }
  }

  lemma ExtendedShortData(w: Fields, w': Fields, s: Seeds, r: bv16, j: nat, v: bv8)
    requires Short(w) && CheckExtendedShort(w, s, r).Valid? && w' != w && j < |w.data|
    requires w' == w.(data := w.data[j := v])
    ensures CheckExtendedShort(w', s, r) == Invalid(DataCrc)
  {
    hide ShortS5, DataMask, Read16, Word24, Mask24, Taken;
    ShortS5Data(w.data, j, v, w.stamp, w.mode, s.s5, r);
  }

  lemma ExtendedShortMode(w: Fields, w': Fields, s: Seeds, r: bv16, v: bv8)
    requires Short(w) && CheckExtendedShort(w, s, r).Valid? && w' != w
    requires w' == w.(mode := v)
    ensures CheckExtendedShort(w', s, r).Valid? <==> DataMask(v) == DataMask(w.mode)
    ensures CheckExtendedShort(w', s, r).Valid? || CheckExtendedShort(w', s, r) == Invalid(DataCrc)
  {
    hide ShortS5, DataMask, Read16, Word24, Mask24;
    ShortS5Mode(w.data, w.stamp, w.mode, v, s.s5, r);
  }

  lemma ExtendedShortCode(w: Fields, w': Fields, s: Seeds, r: bv16, j: nat, v: bv8)
    requires Short(w) && CheckExtendedShort(w, s, r).Valid? && w' != w && j < 2
    requires w' == w.(a := w.a[j := v])
    ensures CheckExtendedShort(w', s, r) == Invalid(DataCrc)
  {
    hide ShortS5, DataMask, Read16, Word24, Mask24, Taken;
    CodeSeen(w.a, w.t, w'.a, w'.t, ShortS5(w.data, w.stamp, w.mode, s.s5, r));
  }

  lemma ExtendedShortStamp(w: Fields, w': Fields, s: Seeds, r: bv16, j: nat, v: bv8)
    requires Short(w) && CheckExtendedShort(w, s, r).Valid? && w' != w && j < 2
    requires w' == w.(stamp := w.stamp[j := v])
    ensures CheckExtendedShort(w', s, r) == Invalid(DataCrc)
  {
    hide ShortS5, DataMask, Read16, Word24, Mask24, Taken;
    ShortS5Stamp(w.data, w.stamp, j, v, w.mode, s.s5, r);
  }

  lemma ExtendedShortLast(w: Fields, w': Fields, s: Seeds, r: bv16, v: bv8)
    requires Short(w) && CheckExtendedShort(w, s, r).Valid? && w' != w
    requires w' == w.(t := v)
    ensures CheckExtendedShort(w', s, r) == Invalid(DataCrc)
  {
    hide ShortS5, DataMask, Read16, Word24, Mask24, Taken;
    CodeSeen(w.a, w.t, w'.a, w'.t, ShortS5(w.data, w.stamp, w.mode, s.s5, r));
  }

  // The one change an Extended short frame lets through is a change of the five
  // low mode bits.
  lemma ExtendedShortSeen(w: Fields, s: Seeds, r: bv16, k: nat, v: bv8)
    requires Short(w) && CheckExtendedShort(w, s, r).Valid? && k < |w.data| + 6 && ShortAltered(w, k, v) != w
    ensures CheckExtendedShort(ShortAltered(w, k, v), s, r).Valid? <==>
      k == |w.data| && DataMask(v) == DataMask(w.mode)
    ensures CheckExtendedShort(ShortAltered(w, k, v), s, r).Valid? ||
      CheckExtendedShort(ShortAltered(w, k, v), s, r) == Invalid(ShortFault(|w.data|, Extended, k, true))
  {
    hide CheckExtendedShort, DataMask;
    var n, w' := |w.data|, ShortAltered(w, k, v);
    if k < n { ExtendedShortData(w, w', s, r, k, v); }
    else if k == n { ExtendedShortMode(w, w', s, r, v); }
    else if k < n + 3 { ExtendedShortCode(w, w', s, r, k - n - 1, v); }
    else if k < n + 5 { ExtendedShortStamp(w, w', s, r, k - n - 3, v); }
    else { ExtendedShortLast(w, w', s, r, v); }
  }

  // ---- On the wire ----

  // Decoding what was encoded gives the frame back, and the frame has the
  // advertised size.
  lemma RoundTrip(f: Frame, format: Format, s: Seeds, rollover: bv16)
    ensures |Encode(f, format, s, rollover)| == WireSize(|f.data|, format)
    ensures Decode(Encode(f, format, s, rollover), |f.data|, format, s, rollover) == Valid(f)
  {
    hide *;
    AcceptsExactly(Encode(f, format, s, rollover), |f.data|, format, s, rollover, f);
  }

  // A frame that ends too early is told to be short.
  lemma TruncatedSeen(f: Frame, format: Format, s: Seeds, r: bv16, k: nat)
    requires k < WireSize(|f.data|, format)
    ensures |Encode(f, format, s, r)[..k]| == k
    ensures Decode(Encode(f, format, s, r)[..k], |f.data|, format, s, r) == Invalid(TooShort)
  {
    hide Encode;
    RoundTrip(f, format, s, r);
  }

  lemma OneByteAltered(f: Frame, format: Format, s: Seeds, r: bv16, k: nat, v: bv8)
    requires k < WireSize(|f.data|, format) && v != Encode(f, format, s, r)[k]
    ensures Decode(Encode(f, format, s, r)[k := v], |f.data|, format, s, r).Valid? <==>
      format == Extended && |f.data| <= 2 && k == |f.data| && DataMask(v) == DataMask(f.mode)
    ensures var got := Decode(Encode(f, format, s, r)[k := v], |f.data|, format, s, r);
      got.Valid? || got == Invalid(FaultAt(|f.data|, format, k, DataMask(v) != DataMask(f.mode)))
  {
    hide Join, CheckBaseShort, CheckBaseLong, CheckExtendedShort, CheckExtendedLong, DataMask;
    hide ShortFields, LongFields, BaseShort, BaseLong, ExtendedShort, ExtendedLong, ShortAltered, LongAltered;
    var n, w, x := |f.data|, FieldsOf(f, format, s, r), Encode(f, format, s, r);
    assert x[k := v][k] == v;
    FieldsCarry(f, format, s, r);
    Rejoined(x, w);
    RoundTrip(f, format, s, r);
    if n <= 2 {
      ShortAlteredBytes(x, n, k, v);
      ShortSplit(x, n);
      ShortSplit(x[k := v], n);
      assert ShortAltered(w, k, v) != w;
      if format == Base {
        BaseShortSeen(w, s, k, v);
      } else {
        ExtendedShortSeen(w, s, r, k, v);
      }
    } else {
      LongAlteredBytes(x, n, k, v);
      LongSplit(x, n);
      LongSplit(x[k := v], n);
      assert LongAltered(w, k, v) != w;
      if format == Base {
        BaseLongSeen(w, s, k, v);
      } else {
        ExtendedLongSeen(w, s, r, k, v);
      }
    }
  }

  lemma FieldsCarry(f: Frame, format: Format, s: Seeds, r: bv16)
    ensures var w := FieldsOf(f, format, s, r); w.data == f.data && w.mode == f.mode && w.stamp == Le16(f.ts)
  {
    hide DataS1, ComplementS2, StampS1, DataS3, ComplementS3, ShortS5, LongS5, RolloverSeedS3, Le16, B0, B1, B2;
  }

  // What an altered mode byte lets through carries the same data and timestamp.
  lemma AlteredModeTaken(f: Frame, s: Seeds, r: bv16, v: bv8)
    requires |f.data| <= 2 && DataMask(v) == DataMask(f.mode)
    ensures Decode(Encode(f, Extended, s, r)[|f.data| := v], |f.data|, Extended, s, r) == Valid(f.(mode := v))
  {
    hide Decode, ExtendedShort, Join, DataMask;
    RoundTrip(f.(mode := v), Extended, s, r);
    SameWithMode(f, s, r, v);
    JoinWithMode(ExtendedShort(f, s, r), v);
  }

  lemma SameWithMode(f: Frame, s: Seeds, r: bv16, v: bv8)
    requires DataMask(v) == DataMask(f.mode)
    ensures ExtendedShort(f.(mode := v), s, r) == ExtendedShort(f, s, r).(mode := v)
    ensures ExtendedShort(f, s, r).data == f.data
  {
    hide DataMask, S5Raw, RolloverSeedS5, Le16, B0, B1, B2;
  }

  lemma JoinWithMode(w: Fields, v: bv8)
    requires Short(w)
    ensures |Join(w)| > |w.data| && Join(w.(mode := v)) == Join(w)[|w.data| := v]
  {}

  // ---- The timestamp read before the check ----

  lemma PeekIsTimestamp(f: Frame, format: Format, s: Seeds, r: bv16)
    requires format == Base || |f.data| <= 2
    ensures ExtractTimestamp(Encode(f, format, s, r), |f.data|, format) == f.ts
  {
    hide Join, Read16, Le16, DataS1, ComplementS2, StampS1, DataS3, ComplementS3, ShortS5, RolloverSeedS3, B0, B1, B2;
    var n, w, x := |f.data|, FieldsOf(f, format, s, r), Encode(f, format, s, r);
    Read16Le16(f.ts);
    Rejoined(x, w);
    if n <= 2 {
      FromSlice(x, n + 3);
    } else {
      FromSlice(x, 2 * n + 5);
    }
  }

  lemma FromSlice(x: seq<bv8>, i: nat)
    requires i + 2 <= |x|
    ensures Read16(x[i..]) == Read16(x[i..i + 2])
  {
    hide Word;
  }

  // In an Extended long frame the peek is one byte late: it pairs the high byte
  // of the timestamp with the last byte of the code.
  lemma PeekIsLate(f: Frame, s: Seeds, r: bv16)
    requires |f.data| > 2
    ensures ExtractTimestamp(Encode(f, Extended, s, r), |f.data|, Extended) ==
      Word(Hi(f.ts), B2(LongS5(Complement(f.data), Le16(f.ts), f.mode, s.s5, r)))
  {
    hide Join, Word, Lo, Hi, DataS3, LongS5, RolloverSeedS3, B0, B1, B2;
    var n, w, x := |f.data|, FieldsOf(f, Extended, s, r), Encode(f, Extended, s, r);
    Rejoined(x, w);
    assert x[2 * n + 5..2 * n + 7] == LongFields(x, n).stamp == Le16(f.ts);
    assert x[2 * n + 6] == Le16(f.ts)[1] && x[2 * n + 7] == w.t;
  }

  // So it is right exactly when both of those bytes equal the low byte's.
  lemma PeekLateExact(f: Frame, s: Seeds, r: bv16)
    requires |f.data| > 2
    ensures ExtractTimestamp(Encode(f, Extended, s, r), |f.data|, Extended) == f.ts <==>
      Hi(f.ts) == Lo(f.ts) && B2(LongS5(Complement(f.data), Le16(f.ts), f.mode, s.s5, r)) == Hi(f.ts)
  {
    hide *;
    PeekIsLate(f, s, r);
    WordIs(Hi(f.ts), B2(LongS5(Complement(f.data), Le16(f.ts), f.mode, s.s5, r)), f.ts);
  }

  lemma PeekFailsAtOne(data: seq<bv8>, mode: bv8, s: Seeds, r: bv16)
    requires |data| > 2
    ensures ExtractTimestamp(Encode(Frame(data, mode, 1), Extended, s, r), |data|, Extended) != 1
  {
    hide LongS5, Encode, ExtractTimestamp;
    PeekLateExact(Frame(data, mode, 1), s, r);
  }
}
