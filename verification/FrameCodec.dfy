// The codec as it runs: every layout is written and read through an offset that
// advances field by field, and the codes are recomputed by the table loops.
module FrameCodec {
  import opened Words
  import opened Crc
  import opened SafetyCrc
  import opened SafetyFrame

  predicate S5Table(t: seq<bv32>) { |t| == 256 && forall k :: 0 <= k < 256 ==> t[k] == S5At(k) }

  method Put(out: array<bv8>, off: nat, bytes: seq<bv8>) returns (next: nat)
    requires off + |bytes| <= out.Length
    modifies out
    ensures next == off + |bytes|
    ensures out[..next] == old(out[..off]) + bytes
    ensures forall i :: next <= i < out.Length ==> out[i] == old(out[i])
  {
    for i := 0 to |bytes|
      invariant out[..off + i] == old(out[..off]) + bytes[..i]
      invariant forall j :: off + i <= j < out.Length ==> out[j] == old(out[j])
    {
      out[off + i] := bytes[i];
    }
    next := off + |bytes|;
  }

  method Complemented(data: seq<bv8>) returns (comp: seq<bv8>)
    ensures comp == Complement(data)
  {
    hide Flip;
    comp := [];
    for i := 0 to |data|
      invariant comp == Complement(data[..i])
    {
      comp := comp + [Flip(data[i])];
      assert Complement(data[..i + 1]) == Complement(data[..i]) + [Flip(data[i])];
    }
    assert data[..|data|] == data;
  }

  method TimestampCode(mode: bv8, stamp: seq<bv8>, s1: bv8) returns (t: bv8)
    ensures t == StampS1(stamp, mode, s1)
  {
    t := ComputeS1([StampMask(mode)], s1);
    t := ComputeS1(stamp, t);
  }

  method ActualCodeS1(data: seq<bv8>, mode: bv8, s1: bv8) returns (a: bv8)
    ensures a == DataS1(data, mode, s1)
  {
    a := ComputeS1([DataMask(mode)], s1);
    a := ComputeS1(data, a);
  }

  method ComplementCodeS2(data: seq<bv8>, mode: bv8, s1: bv8) returns (c: bv8)
    ensures c == ComplementS2(data, mode, s1)
  {
    c := ComputeS2([ComplementMask(mode)], s1);
    var comp := Complemented(data);
    c := ComputeS2(comp, c);
  }

  method ActualCodeS3(data: seq<bv8>, mode: bv8, s3: bv16) returns (a: bv16)
    ensures a == DataS3(data, mode, s3)
  {
    hide S3Byte, S3;
    S3Single(DataMask(mode), s3);
    a := ComputeS3Byte(DataMask(mode), s3);
    a := ComputeS3(data, a);
  }

  method ComplementCodeS3(comp: seq<bv8>, mode: bv8, s3: bv16) returns (c: bv16)
    ensures c == ComplementS3(comp, mode, s3)
  {
    hide S3Byte, S3;
    S3Single(ComplementMask(mode), s3);
    c := ComputeS3Byte(ComplementMask(mode), s3);
    c := ComputeS3(comp, c);
  }

  method RolloverCodeS5(table: array<bv32>, msg: seq<bv8>, s5: bv32, rollover: bv16) returns (c: bv32)
    requires S5Table(table[..])
    ensures c == S5Raw(msg, RolloverSeedS5(rollover, s5))
  {
    hide S5Raw, S5At;
    var seed := ComputeS5Raw(table, Le16(rollover), s5);
    c := ComputeS5Raw(table, msg, seed);
  }

  method WriteShort(out: array<bv8>, w: Fields) returns (off: nat)
    requires Short(w) && out.Length >= |w.data| + 6
    modifies out
    ensures off == |w.data| + 6 && out[..off] == Join(w)
    ensures forall i :: off <= i < out.Length ==> out[i] == old(out[i])
  {
    off := Put(out, 0, w.data);
    off := Put(out, off, [w.mode]);
    off := Put(out, off, w.a);
    off := Put(out, off, w.stamp);
    off := Put(out, off, [w.t]);
  }

  method WriteLong(out: array<bv8>, w: Fields) returns (off: nat)
    requires Long(w) && out.Length >= 2 * |w.data| + 8
    modifies out
    ensures off == 2 * |w.data| + 8 && out[..off] == Join(w)
    ensures forall i :: off <= i < out.Length ==> out[i] == old(out[i])
  {
    off := Put(out, 0, w.data);
    off := Put(out, off, [w.mode]);
    off := Put(out, off, w.a);
    ghost var head := w.data + [w.mode] + w.a;
    assert out[..off] == head;
    off := Put(out, off, w.comp);
    off := Put(out, off, w.c);
    off := Put(out, off, w.stamp);
    off := Put(out, off, [w.t]);
  }

  method EncodeBaseShort(out: array<bv8>, f: Frame, s: Seeds) returns (off: nat)
    requires out.Length >= |f.data| + 6
    modifies out
    ensures off == |f.data| + 6 && out[..off] == Join(BaseShort(f, s))
    ensures forall i :: off <= i < out.Length ==> out[i] == old(out[i])
  {
    hide DataS1, ComplementS2, StampS1, Le16, Join;
    var a := ActualCodeS1(f.data, f.mode, s.s1);
    var c := ComplementCodeS2(f.data, f.mode, s.s1);
    var t := TimestampCode(f.mode, Le16(f.ts), s.s1);
    off := WriteShort(out, Fields(f.data, f.mode, [a, c], [], [], Le16(f.ts), t));
  }

  method EncodeBaseLong(out: array<bv8>, f: Frame, s: Seeds) returns (off: nat)
    requires out.Length >= 2 * |f.data| + 8
    modifies out
    ensures off == 2 * |f.data| + 8 && out[..off] == Join(BaseLong(f, s))
    ensures forall i :: off <= i < out.Length ==> out[i] == old(out[i])
  {
    hide DataS3, ComplementS3, StampS1, Le16, Complement, Join;
    var a := ActualCodeS3(f.data, f.mode, s.s3);
    var comp := Complemented(f.data);
    var c := ComplementCodeS3(comp, f.mode, s.s3);
    var t := TimestampCode(f.mode, Le16(f.ts), s.s1);
    off := WriteLong(out, Fields(f.data, f.mode, Le16(a), comp, Le16(c), Le16(f.ts), t));
  }

  method EncodeExtendedShort(table: array<bv32>, out: array<bv8>, f: Frame, s: Seeds, rollover: bv16) returns (off: nat)
    requires S5Table(table[..]) && out.Length >= |f.data| + 6
    modifies out
    ensures off == |f.data| + 6 && out[..off] == Join(ExtendedShort(f, s, rollover))
    ensures forall i :: off <= i < out.Length ==> out[i] == old(out[i])
  {
    hide S5Raw, RolloverSeedS5, Le16, DataMask, S5Table, B0, B1, B2, Join;
    var s5 := RolloverCodeS5(table, [DataMask(f.mode)] + f.data + Le16(f.ts), s.s5, rollover);
    off := WriteShort(out, Fields(f.data, f.mode, [B0(s5), B1(s5)], [], [], Le16(f.ts), B2(s5)));
  }

  method EncodeExtendedLong(table: array<bv32>, out: array<bv8>, f: Frame, s: Seeds, rollover: bv16) returns (off: nat)
    requires S5Table(table[..]) && out.Length >= 2 * |f.data| + 8
    modifies out
    ensures off == 2 * |f.data| + 8 && out[..off] == Join(ExtendedLong(f, s, rollover))
    ensures forall i :: off <= i < out.Length ==> out[i] == old(out[i])
  {
    hide S5Raw, S3, RolloverSeedS5, DataS3, Le16, StampMask, S5Table, B0, B1, B2, Complement, Join;
    var seed3 := ComputeS3U16(rollover, s.s3);
    var a := ActualCodeS3(f.data, f.mode, seed3);
    var comp := Complemented(f.data);
    var s5 := RolloverCodeS5(table, [StampMask(f.mode)] + comp + Le16(f.ts), s.s5, rollover);
    off := WriteLong(out, Fields(f.data, f.mode, Le16(a), comp, [B0(s5), B1(s5)], Le16(f.ts), B2(s5)));
  }

  method EncodeInto(table: array<bv32>, out: array<bv8>, f: Frame, format: Format, s: Seeds, rollover: bv16)
    returns (len: nat)
    requires S5Table(table[..]) && out.Length >= WireSize(|f.data|, format)
    modifies out
    ensures len == WireSize(|f.data|, format) && out[..len] == Encode(f, format, s, rollover)
    ensures forall i :: len <= i < out.Length ==> out[i] == old(out[i])
  {
    hide Join, BaseShort, BaseLong, ExtendedShort, ExtendedLong;
    if format == Base {
      if |f.data| <= 2 { len := EncodeBaseShort(out, f, s); } else { len := EncodeBaseLong(out, f, s); }
    } else if |f.data| <= 2 {
      len := EncodeExtendedShort(table, out, f, s, rollover);
    } else {
      len := EncodeExtendedLong(table, out, f, s, rollover);
    }
  }

  // ---- Decoding ----

  method FindMismatch(data: seq<bv8>, comp: seq<bv8>) returns (found: bool)
    requires |data| == |comp|
    ensures found <==> Complement(data) != comp
  {
    hide Flip;
    for i := 0 to |data|
      invariant forall j :: 0 <= j < i ==> Flip(data[j]) == comp[j]
    {
      if Flip(data[i]) != comp[i] {
        assert Complement(data)[i] != comp[i];
        return true;
      }
    }
    return false;
  }

  method DecodeBaseShort(input: seq<bv8>, n: nat, s: Seeds) returns (r: Decoded)
    ensures r == if |input| < n + 6 then Invalid(TooShort) else CheckBaseShort(ShortFields(input, n), s)
  {
    hide DataS1, ComplementS2, StampS1, Read16;
    if |input| < n + 6 { return Invalid(TooShort); }
    var off := n;
    var data, mode := input[..n], input[off];
    off := off + 1;
    var wireA, wireC := input[off], input[off + 1];
    off := off + 2;
    var stamp := input[off..off + 2];
    off := off + 2;
    var wireT := input[off];
    var a := ActualCodeS1(data, mode, s.s1);
    if a != wireA { return Invalid(DataCrc); }
    var c := ComplementCodeS2(data, mode, s.s1);
    if c != wireC { return Invalid(ComplementCrc); }
    var t := TimestampCode(mode, stamp, s.s1);
    if t != wireT { return Invalid(TimestampCrc); }
    return Valid(Frame(data, mode, Read16(stamp)));
  }

  method DecodeBaseLong(input: seq<bv8>, n: nat, s: Seeds) returns (r: Decoded)
    ensures r == if |input| < 2 * n + 8 then Invalid(TooShort) else CheckBaseLong(LongFields(input, n), s)
  {
    hide DataS3, ComplementS3, StampS1, Read16, Complement;
    if |input| < 2 * n + 8 { return Invalid(TooShort); }
    var off := n;
    var data, mode := input[..n], input[off];
    off := off + 1;
    var wireA := Read16(input[off..off + 2]);
    off := off + 2;
    var comp := input[off..off + n];
    off := off + n;
    var wireC := Read16(input[off..off + 2]);
    off := off + 2;
    var stamp := input[off..off + 2];
    off := off + 2;
    var wireT := input[off];
    var mismatch := FindMismatch(data, comp);
    if mismatch { return Invalid(DataMismatch); }
    var a := ActualCodeS3(data, mode, s.s3);
    if a != wireA { return Invalid(DataCrc); }
    var c := ComplementCodeS3(comp, mode, s.s3);
    if c != wireC { return Invalid(ComplementCrc); }
    var t := TimestampCode(mode, stamp, s.s1);
    if t != wireT { return Invalid(TimestampCrc); }
    return Valid(Frame(data, mode, Read16(stamp)));
  }

  method DecodeExtendedShort(table: array<bv32>, input: seq<bv8>, n: nat, s: Seeds, rollover: bv16) returns (r: Decoded)
    requires S5Table(table[..])
    ensures r == if |input| < n + 6 then Invalid(TooShort) else CheckExtendedShort(ShortFields(input, n), s, rollover)
  {
    hide S5Raw, RolloverSeedS5, DataMask, S5Table, Read16, Word24, Mask24;
    if |input| < n + 6 { return Invalid(TooShort); }
    var off := n;
    var data, mode := input[..n], input[off];
    off := off + 1;
    var lo := Read16(input[off..off + 2]);
    off := off + 2;
    var stamp := input[off..off + 2];
    off := off + 2;
    var hi := input[off];
    var expected := RolloverCodeS5(table, [DataMask(mode)] + data + stamp, s.s5, rollover);
    if Word24(lo, hi) != Mask24(expected) { return Invalid(DataCrc); }
    return Valid(Frame(data, mode, Read16(stamp)));
  }

  method DecodeExtendedLong(table: array<bv32>, input: seq<bv8>, n: nat, s: Seeds, rollover: bv16) returns (r: Decoded)
    requires S5Table(table[..])
    ensures r == if |input| < 2 * n + 8 then Invalid(TooShort) else CheckExtendedLong(LongFields(input, n), s, rollover)
  {
    hide S5Raw, S3, RolloverSeedS5, DataS3, StampMask, S5Table, Read16, Word24, Mask24, Complement;
    if |input| < 2 * n + 8 { return Invalid(TooShort); }
    var off := n;
    var data, mode := input[..n], input[off];
    off := off + 1;
    var wireA := Read16(input[off..off + 2]);
    off := off + 2;
    var comp := input[off..off + n];
    off := off + n;
    var lo := Read16(input[off..off + 2]);
    off := off + 2;
    var stamp := input[off..off + 2];
    off := off + 2;
    var hi := input[off];
    var mismatch := FindMismatch(data, comp);
    if mismatch { return Invalid(DataMismatch); }
    var seed3 := ComputeS3U16(rollover, s.s3);
    var a := ActualCodeS3(data, mode, seed3);
    if a != wireA { return Invalid(DataCrc); }
    var expected := RolloverCodeS5(table, [StampMask(mode)] + comp + stamp, s.s5, rollover);
    if Word24(lo, hi) != Mask24(expected) { return Invalid(ComplementCrc); }
    return Valid(Frame(data, mode, Read16(stamp)));
  }

  method DecodeFrom(table: array<bv32>, input: seq<bv8>, n: nat, format: Format, s: Seeds, rollover: bv16)
    returns (r: Decoded)
    requires S5Table(table[..])
    ensures r == Decode(input, n, format, s, rollover)
  {
    hide CheckBaseShort, CheckBaseLong, CheckExtendedShort, CheckExtendedLong;
    if format == Base {
      if n <= 2 { r := DecodeBaseShort(input, n, s); } else { r := DecodeBaseLong(input, n, s); }
    } else if n <= 2 {
      r := DecodeExtendedShort(table, input, n, s, rollover);
    } else {
      r := DecodeExtendedLong(table, input, n, s, rollover);
    }
  }
}
