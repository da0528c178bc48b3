// The four layouts of a safety data frame. Base and Extended frames of one size
// class put their fields in the same places; they differ in what the check
// fields hold.
module SafetyFrame {
  import opened Words
  import opened Crc
  import opened SafetyCrc

  datatype Format = Base | Extended

  datatype Seeds = Seeds(s1: bv8, s3: bv16, s5: bv32)

  datatype Frame = Frame(data: seq<bv8>, mode: bv8, ts: bv16)

  datatype Fault = TooShort | DataMismatch | DataCrc | ComplementCrc | TimestampCrc

  datatype Decoded = Valid(frame: Frame) | Invalid(fault: Fault)

  // ---- The mode byte: which of its bits each code covers ----

  function DataMask(mode: bv8): bv8 { mode & 0xE0 }

  function ComplementMask(mode: bv8): bv8 { (mode ^ 0xFF) & 0xE0 }

  function StampMask(mode: bv8): bv8 { mode & 0x1F }

  function Flip(b: bv8): bv8 { b ^ 0xFF }

  function Complement(data: seq<bv8>): (r: seq<bv8>)
    ensures |r| == |data| && forall i :: 0 <= i < |data| ==> r[i] == Flip(data[i])
  {
    seq(|data|, i requires 0 <= i < |data| => Flip(data[i]))
  }

  // ---- Sizes ----

  function WireSize(n: nat, format: Format): nat {
    match format
    case Base => if n <= 2 then n + 6 else 2 * n + 8
    case Extended => if n <= 2 then n + 6 else 2 * n + 8
  }

  // ---- The check fields ----

  function DataS1(data: seq<bv8>, mode: bv8, s1: bv8): bv8 {
    S1(data, S1([DataMask(mode)], s1))
  }

  // Seeded, as in the source, with the S1 seed.
  function ComplementS2(data: seq<bv8>, mode: bv8, s1: bv8): bv8 {
    S2(Complement(data), S2([ComplementMask(mode)], s1))
  }

  function StampS1(stamp: seq<bv8>, mode: bv8, s1: bv8): bv8 {
    S1(stamp, S1([StampMask(mode)], s1))
  }

  function DataS3(data: seq<bv8>, mode: bv8, s3: bv16): bv16 {
    S3(data, S3Byte(DataMask(mode), s3))
  }

  function ComplementS3(comp: seq<bv8>, mode: bv8, s3: bv16): bv16 {
    S3(comp, S3Byte(ComplementMask(mode), s3))
  }

  function ShortS5(data: seq<bv8>, stamp: seq<bv8>, mode: bv8, s5: bv32, rollover: bv16): bv32 {
    S5Raw([DataMask(mode)] + data + stamp, RolloverSeedS5(rollover, s5))
  }

  function LongS5(comp: seq<bv8>, stamp: seq<bv8>, mode: bv8, s5: bv32, rollover: bv16): bv32 {
    S5Raw([StampMask(mode)] + comp + stamp, RolloverSeedS5(rollover, s5))
  }

  // ---- Fields, in wire order; a short frame has no complement fields ----

  datatype Fields = Fields(data: seq<bv8>, mode: bv8, a: seq<bv8>, comp: seq<bv8>, c: seq<bv8>, stamp: seq<bv8>, t: bv8)

  predicate Short(w: Fields) { |w.a| == |w.stamp| == 2 && w.comp == [] && w.c == [] }

  predicate Long(w: Fields) { |w.a| == |w.stamp| == |w.c| == 2 && |w.comp| == |w.data| }

  function Join(w: Fields): (r: seq<bv8>)
    ensures |r| == |w.data| + |w.a| + |w.comp| + |w.c| + |w.stamp| + 2
  {
    w.data + [w.mode] + w.a + w.comp + w.c + w.stamp + [w.t]
  }

  function ShortFields(input: seq<bv8>, n: nat): (w: Fields)
    requires |input| >= n + 6
    ensures Short(w)
  {
    Fields(input[..n], input[n], input[n + 1..n + 3], [], [], input[n + 3..n + 5], input[n + 5])
  }

  function LongFields(input: seq<bv8>, n: nat): (w: Fields)
    requires |input| >= 2 * n + 8
    ensures Long(w)
  {
    Fields(input[..n], input[n], input[n + 1..n + 3], input[n + 3..2 * n + 3], input[2 * n + 3..2 * n + 5],
           input[2 * n + 5..2 * n + 7], input[2 * n + 7])
  }

  // ---- Encoding ----

  function BaseShort(f: Frame, s: Seeds): (w: Fields)
    ensures Short(w)
  {
    Fields(f.data, f.mode, [DataS1(f.data, f.mode, s.s1), ComplementS2(f.data, f.mode, s.s1)], [], [],
           Le16(f.ts), StampS1(Le16(f.ts), f.mode, s.s1))
  }

  function BaseLong(f: Frame, s: Seeds): (w: Fields)
    ensures Long(w)
  {
    var comp := Complement(f.data);
    Fields(f.data, f.mode, Le16(DataS3(f.data, f.mode, s.s3)), comp, Le16(ComplementS3(comp, f.mode, s.s3)),
           Le16(f.ts), StampS1(Le16(f.ts), f.mode, s.s1))
  }

  function ExtendedShort(f: Frame, s: Seeds, rollover: bv16): (w: Fields)
    ensures Short(w)
  {
    var s5 := ShortS5(f.data, Le16(f.ts), f.mode, s.s5, rollover);
    Fields(f.data, f.mode, [B0(s5), B1(s5)], [], [], Le16(f.ts), B2(s5))
  }

  function ExtendedLong(f: Frame, s: Seeds, rollover: bv16): (w: Fields)
    ensures Long(w)
  {
    var comp := Complement(f.data);
    var s5 := LongS5(comp, Le16(f.ts), f.mode, s.s5, rollover);
    Fields(f.data, f.mode, Le16(DataS3(f.data, f.mode, RolloverSeedS3(rollover, s.s3))), comp, [B0(s5), B1(s5)],
           Le16(f.ts), B2(s5))
  }

  function FieldsOf(f: Frame, format: Format, s: Seeds, rollover: bv16): (w: Fields)
    ensures w.data == f.data && if |f.data| <= 2 then Short(w) else Long(w)
  {
    if format == Base then
      if |f.data| <= 2 then BaseShort(f, s) else BaseLong(f, s)
    else
      if |f.data| <= 2 then ExtendedShort(f, s, rollover) else ExtendedLong(f, s, rollover)
  }

  function Encode(f: Frame, format: Format, s: Seeds, rollover: bv16): (r: seq<bv8>)
    ensures |r| == WireSize(|f.data|, format)
  {
    Join(FieldsOf(f, format, s, rollover))
  }

  // ---- Decoding ----

  function Word24(w: bv16, hi: bv8): bv32 { (w as bv32) | ((hi as bv32) << 16) }

  function Taken(w: Fields): Decoded
    requires |w.stamp| == 2
  {
    Valid(Frame(w.data, w.mode, Read16(w.stamp)))
  }

  function CheckBaseShort(w: Fields, s: Seeds): Decoded
    requires Short(w)
  {
    if DataS1(w.data, w.mode, s.s1) != w.a[0] then Invalid(DataCrc)
    else if ComplementS2(w.data, w.mode, s.s1) != w.a[1] then Invalid(ComplementCrc)
    else if StampS1(w.stamp, w.mode, s.s1) != w.t then Invalid(TimestampCrc)
    else Taken(w)
  }

  function CheckBaseLong(w: Fields, s: Seeds): Decoded
    requires Long(w)
  {
    if Complement(w.data) != w.comp then Invalid(DataMismatch)
    else if DataS3(w.data, w.mode, s.s3) != Read16(w.a) then Invalid(DataCrc)
    else if ComplementS3(w.comp, w.mode, s.s3) != Read16(w.c) then Invalid(ComplementCrc)
    else if StampS1(w.stamp, w.mode, s.s1) != w.t then Invalid(TimestampCrc)
    else Taken(w)
  }

  function CheckExtendedShort(w: Fields, s: Seeds, rollover: bv16): Decoded
    requires Short(w)
  {
    if Word24(Read16(w.a), w.t) != Mask24(ShortS5(w.data, w.stamp, w.mode, s.s5, rollover)) then Invalid(DataCrc)
    else Taken(w)
  }

  function CheckExtendedLong(w: Fields, s: Seeds, rollover: bv16): Decoded
    requires Long(w)
  {
    if Complement(w.data) != w.comp then Invalid(DataMismatch)
    else if DataS3(w.data, w.mode, RolloverSeedS3(rollover, s.s3)) != Read16(w.a) then Invalid(DataCrc)
    else if Word24(Read16(w.c), w.t) != Mask24(LongS5(w.comp, w.stamp, w.mode, s.s5, rollover)) then
      Invalid(ComplementCrc)
    else Taken(w)
  }

  function CheckShort(w: Fields, format: Format, s: Seeds, rollover: bv16): Decoded
    requires Short(w)
  {
    if format == Base then CheckBaseShort(w, s) else CheckExtendedShort(w, s, rollover)
  }

  function CheckLong(w: Fields, format: Format, s: Seeds, rollover: bv16): Decoded
    requires Long(w)
  {
    if format == Base then CheckBaseLong(w, s) else CheckExtendedLong(w, s, rollover)
  }

  function Decode(input: seq<bv8>, n: nat, format: Format, s: Seeds, rollover: bv16): Decoded {
    if |input| < WireSize(n, format) then Invalid(TooShort)
    else if n <= 2 then CheckShort(ShortFields(input, n), format, s, rollover)
    else CheckLong(LongFields(input, n), format, s, rollover)
  }

  // The timestamp as the consumer reads it before it has checked anything.
  function ExtractTimestamp(input: seq<bv8>, n: nat, format: Format): bv16 {
    var off := if n <= 2 then n + 3 else if format == Base then 2 * n + 5 else 2 * n + 6;
    if off + 2 > |input| then 0 else Read16(input[off..])
  }

  // ---- Bytes and words ----

  lemma Word24OfBytes(c: bv32)
    ensures Word24(Word(B0(c), B1(c)), B2(c)) == Mask24(c)
  {}

  lemma BytesOfWord24(lo: bv8, hi: bv8, top: bv8)
    ensures B0(Word24(Word(lo, hi), top)) == lo && B1(Word24(Word(lo, hi), top)) == hi &&
      B2(Word24(Word(lo, hi), top)) == top
  {}

  lemma BytesOfMask24(c: bv32)
    ensures B0(Mask24(c)) == B0(c) && B1(Mask24(c)) == B1(c) && B2(Mask24(c)) == B2(c)
  {}

  // The bytes on the wire carry the code exactly.
  lemma Word24Is(lo: bv8, hi: bv8, top: bv8, c: bv32)
    ensures Word24(Word(lo, hi), top) == Mask24(c) <==> lo == B0(c) && hi == B1(c) && top == B2(c)
  {
    hide *;
    Word24OfBytes(c);
    BytesOfWord24(lo, hi, top);
    BytesOfMask24(c);
  }

  lemma WordIs(lo: bv8, hi: bv8, c: bv16)
    ensures Word(lo, hi) == c <==> lo == Lo(c) && hi == Hi(c)
  {
    hide *;
    WordOfBytes(c);
    BytesOfWord(lo, hi);
  }
}
