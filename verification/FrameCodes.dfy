// The check fields of a frame in the standard's terms: remainders of the mode
// bits, the data and the timestamp as polynomials over GF(2).
module FrameCodes {
  import opened Gf2
  import opened Octets
  import opened Words
  import opened Crc
  import opened SafetyCrc
  import opened SafetyFrame

  // ---- The bits that are divided ----

  // The run and redundancy bits of the mode byte, as they are and inverted, and the
  // other five; what a code does not cover counts as zero.
  function TopBits(mode: bv8): Bits {
    [At(mode, 0), At(mode, 1), At(mode, 2), false, false, false, false, false]
  }

  function TopBitsInverted(mode: bv8): Bits {
    [!At(mode, 0), !At(mode, 1), !At(mode, 2), false, false, false, false, false]
  }

  function LowBits(mode: bv8): Bits {
    [false, false, false, At(mode, 3), At(mode, 4), At(mode, 5), At(mode, 6), At(mode, 7)]
  }

  function Inverted(b: Bits): (r: Bits)
    ensures |r| == |b| && forall i :: 0 <= i < |b| ==> r[i] == !b[i]
  {
    seq(|b|, i requires 0 <= i < |b| => !b[i])
  }

  lemma MaskBits(mode: bv8)
    ensures OctetBits(DataMask(mode)) == TopBits(mode)
    ensures OctetBits(ComplementMask(mode)) == TopBitsInverted(mode)
    ensures OctetBits(StampMask(mode)) == LowBits(mode)
  {
    OctetMasks(mode);
    OctetMasks(DataMask(mode));
    OctetMasks(ComplementMask(mode));
    OctetMasks(StampMask(mode));
  }

  lemma FlipBits(b: bv8)
    ensures OctetBits(Flip(b)) == Inverted(OctetBits(b))
  {
    OctetMasks(b);
    OctetMasks(Flip(b));
  }

  lemma {:induction false} ComplementBits(data: seq<bv8>)
    ensures MsgBits(Complement(data)) == Inverted(MsgBits(data))
    decreases |data|
  {
    if data != [] {
      FlipBits(data[0]);
      ComplementBits(data[1..]);
      assert Complement(data)[1..] == Complement(data[1..]);
    }
  }

  lemma OneByte(b: bv8)
    ensures MsgBits([b]) == OctetBits(b)
  {
    assert [b][1..] == [];
  }

  // ---- The codes ----

  lemma S1Behind(mask: bv8, msg: seq<bv8>, seed: bv8)
    ensures OctetBits(S1(msg, S1([mask], seed))) == Divide(G1, OctetBits(mask) + MsgBits(msg), OctetBits(seed))
  {
    OneByte(mask);
    S1IsDivision([mask], seed);
    S1IsDivision(msg, S1([mask], seed));
    DivideConcat(G1, OctetBits(mask), MsgBits(msg), OctetBits(seed));
  }

  lemma S2Behind(mask: bv8, msg: seq<bv8>, seed: bv8)
    ensures OctetBits(S2(msg, S2([mask], seed))) == Divide(G2, OctetBits(mask) + MsgBits(msg), OctetBits(seed))
  {
    OneByte(mask);
    S2IsDivision([mask], seed);
    S2IsDivision(msg, S2([mask], seed));
    DivideConcat(G2, OctetBits(mask), MsgBits(msg), OctetBits(seed));
  }

  lemma S3Behind(mask: bv8, msg: seq<bv8>, seed: bv16)
    ensures Bits16(S3(msg, S3Byte(mask, seed))) == Divide(G3, OctetBits(mask) + MsgBits(msg), Bits16(seed))
  {
    S3ByteBits(mask, seed);
    S3IsDivision(msg, S3Byte(mask, seed));
    DivideConcat(G3, OctetBits(mask), MsgBits(msg), Bits16(seed));
  }

  lemma MaskedBits(c: bv32)
    ensures Bits24(c & 0xFF_FFFF) == Bits24(c)
  {
    assert B0(c & 0xFF_FFFF) == B0(c) && B1(c & 0xFF_FFFF) == B1(c) && B2(c & 0xFF_FFFF) == B2(c);
  }

  lemma S5Behind(mask: bv8, msg: seq<bv8>, stamp: seq<bv8>, rollover: bv16, seed: bv32)
    ensures Bits24(S5Raw([mask] + msg + stamp, RolloverSeedS5(rollover, seed))) ==
      Divide(G5, OctetBits(mask) + MsgBits(msg) + MsgBits(stamp), Divide(G5, MsgBits(Le16(rollover)), Bits24(seed)))
  {
    hide S5, MsgBits, Le16, OctetBits, Bits24;
    var turned := RolloverSeedS5(rollover, seed);
    MaskedBits(seed);
    MaskedBits(turned);
    S5IsDivision(Le16(rollover), seed & 0xFF_FFFF);
    S5IsDivision([mask] + msg + stamp, turned & 0xFF_FFFF);
    MsgBitsConcat([mask] + msg, stamp);
    MsgBitsConcat([mask], msg);
    OneByte(mask);
  }

  // ---- The four layouts, byte by byte ----

  // A word in two bytes, low byte first, and a code of three.
  function WordBits(b: seq<bv8>): Bits
    requires |b| == 2
  {
    OctetBits(b[1]) + OctetBits(b[0])
  }

  lemma BaseShortCodes(f: Frame, s: Seeds, r: bv16)
    requires |f.data| <= 2
    ensures
      var x, n, seed := Encode(f, Base, s, r), |f.data|, OctetBits(s.s1);
      x[..n] == f.data && x[n] == f.mode && x[n + 3..n + 5] == [Lo(f.ts), Hi(f.ts)] &&
      OctetBits(x[n + 1]) == Divide(G1, TopBits(f.mode) + MsgBits(f.data), seed) &&
      OctetBits(x[n + 2]) == Divide(G2, TopBitsInverted(f.mode) + Inverted(MsgBits(f.data)), seed) &&
      OctetBits(x[n + 5]) == Divide(G1, LowBits(f.mode) + (OctetBits(Lo(f.ts)) + OctetBits(Hi(f.ts))), seed)
  {
    hide Divide, S1, S2, DataMask, ComplementMask, StampMask, Lo, Hi, OctetBits, TopBits, TopBitsInverted, LowBits;
    MaskBits(f.mode);
    ComplementBits(f.data);
    S1Behind(DataMask(f.mode), f.data, s.s1);
    S2Behind(ComplementMask(f.mode), Complement(f.data), s.s1);
    S1Behind(StampMask(f.mode), Le16(f.ts), s.s1);
    StampBits(f.ts);
  }

  lemma StampBits(ts: bv16)
    ensures MsgBits(Le16(ts)) == OctetBits(Lo(ts)) + OctetBits(Hi(ts))
  {
    assert Le16(ts)[1..] == [Hi(ts)];
    OneByte(Hi(ts));
  }

  lemma WordIsBits(c: bv16)
    ensures WordBits(Le16(c)) == Bits16(c)
  {}

  lemma BaseLongCodes(f: Frame, s: Seeds, r: bv16)
    requires |f.data| > 2
    ensures
      var x, n := Encode(f, Base, s, r), |f.data|;
      x[..n] == f.data && x[n] == f.mode && x[n + 3..2 * n + 3] == Complement(f.data) &&
      x[2 * n + 5..2 * n + 7] == [Lo(f.ts), Hi(f.ts)] &&
      WordBits(x[n + 1..n + 3]) == Divide(G3, TopBits(f.mode) + MsgBits(f.data), Bits16(s.s3)) &&
      WordBits(x[2 * n + 3..2 * n + 5]) ==
        Divide(G3, TopBitsInverted(f.mode) + Inverted(MsgBits(f.data)), Bits16(s.s3)) &&
      OctetBits(x[2 * n + 7]) ==
        Divide(G1, LowBits(f.mode) + (OctetBits(Lo(f.ts)) + OctetBits(Hi(f.ts))), OctetBits(s.s1))
  {
    hide Divide, S1, S3, S3Byte, DataMask, ComplementMask, StampMask, OctetBits, TopBits, TopBitsInverted, LowBits;
    hide Join, WordBits, Le16, MsgBits, Bits16;
    var x, n, w := Encode(f, Base, s, r), |f.data|, BaseLong(f, s);
    LongPlaces(w);
    MaskBits(f.mode);
    ComplementBits(f.data);
    S3Behind(DataMask(f.mode), f.data, s.s3);
    S3Behind(ComplementMask(f.mode), Complement(f.data), s.s3);
    S1Behind(StampMask(f.mode), Le16(f.ts), s.s1);
    StampBits(f.ts);
    WordIsBits(DataS3(f.data, f.mode, s.s3));
    WordIsBits(ComplementS3(Complement(f.data), f.mode, s.s3));
    StampBytes(f.ts);
  }

  lemma StampBytes(ts: bv16)
    ensures Le16(ts) == [Lo(ts), Hi(ts)]
  {}

  lemma LongPlaces(w: Fields)
    requires Long(w)
    ensures
      var x, n := Join(w), |w.data|;
      |x| == 2 * n + 8 && x[..n] == w.data && x[n] == w.mode && x[n + 1..n + 3] == w.a &&
      x[n + 3..2 * n + 3] == w.comp && x[2 * n + 3..2 * n + 5] == w.c && x[2 * n + 5..2 * n + 7] == w.stamp &&
      x[2 * n + 7] == w.t
  {}

  // The three bytes of a code, highest first.
  lemma ExtendedShortCodes(f: Frame, s: Seeds, r: bv16)
    requires |f.data| <= 2
    ensures
      var x, n := Encode(f, Extended, s, r), |f.data|;
      x[..n] == f.data && x[n] == f.mode && x[n + 3..n + 5] == [Lo(f.ts), Hi(f.ts)] &&
      OctetBits(x[n + 5]) + (OctetBits(x[n + 2]) + OctetBits(x[n + 1])) ==
        Divide(G5, TopBits(f.mode) + MsgBits(f.data) + (OctetBits(Lo(f.ts)) + OctetBits(Hi(f.ts))),
               Divide(G5, OctetBits(Lo(r)) + OctetBits(Hi(r)), Bits24(s.s5)))
  {
    hide Divide, S5Raw, RolloverSeedS5, DataMask, Lo, Hi, OctetBits, TopBits, B0, B1, B2, MsgBits;
    MaskBits(f.mode);
    S5Behind(DataMask(f.mode), f.data, Le16(f.ts), r, s.s5);
    StampBits(f.ts);
    StampBits(r);
  }

  lemma ExtendedLongCodes(f: Frame, s: Seeds, r: bv16)
    requires |f.data| > 2
    ensures
      var x, n := Encode(f, Extended, s, r), |f.data|;
      x[..n] == f.data && x[n] == f.mode && x[n + 3..2 * n + 3] == Complement(f.data) &&
      x[2 * n + 5..2 * n + 7] == [Lo(f.ts), Hi(f.ts)] &&
      WordBits(x[n + 1..n + 3]) ==
        Divide(G3, TopBits(f.mode) + MsgBits(f.data),
               Divide(G3, OctetBits(Lo(r)) + OctetBits(Hi(r)), Bits16(s.s3))) &&
      OctetBits(x[2 * n + 7]) + (OctetBits(x[2 * n + 4]) + OctetBits(x[2 * n + 3])) ==
        Divide(G5, LowBits(f.mode) + Inverted(MsgBits(f.data)) + (OctetBits(Lo(f.ts)) + OctetBits(Hi(f.ts))),
               Divide(G5, OctetBits(Lo(r)) + OctetBits(Hi(r)), Bits24(s.s5)))
  {
    hide Divide, S5Raw, RolloverSeedS5, S3, S3Byte, DataMask, StampMask, OctetBits, TopBits, LowBits, B0, B1, B2;
    hide Join, WordBits, Le16, MsgBits, Bits16;
    var x, n, w := Encode(f, Extended, s, r), |f.data|, ExtendedLong(f, s, r);
    LongPlaces(w);
    MaskBits(f.mode);
    ComplementBits(f.data);
    S3Behind(DataMask(f.mode), f.data, RolloverSeedS3(r, s.s3));
    S3IsDivision(Le16(r), s.s3);
    S5Behind(StampMask(f.mode), Complement(f.data), Le16(f.ts), r, s.s5);
    StampBits(f.ts);
    StampBits(r);
    StampBytes(f.ts);
    WordIsBits(DataS3(f.data, f.mode, RolloverSeedS3(r, s.s3)));
    assert x[2 * n + 3] == x[2 * n + 3..2 * n + 5][0] && x[2 * n + 4] == x[2 * n + 3..2 * n + 5][1];
    CodeBits(LongS5(Complement(f.data), Le16(f.ts), f.mode, s.s5, r));
  }

  lemma CodeBits(c: bv32)
    ensures OctetBits(B2(c)) + (OctetBits(B1(c)) + OctetBits(B0(c))) == Bits24(c)
  {}

  // ---- The seeds ----

  // Vendor, serial number of the device and connection serial number, each low byte
  // first, divided from zero.
  function IdentityBits(vendor: bv16, serial: bv32, connection: bv16): Bits {
    (OctetBits(Lo(vendor)) + OctetBits(Hi(vendor))) +
    ((OctetBits(B0(serial)) + OctetBits(B1(serial))) + (OctetBits(B2(serial)) + OctetBits(B3(serial)))) +
    (OctetBits(Lo(connection)) + OctetBits(Hi(connection)))
  }

  lemma IdentityIsBytes(vendor: bv16, serial: bv32, connection: bv16)
    ensures MsgBits(PidBytes(vendor, serial, connection)) == IdentityBits(vendor, serial, connection)
  {
    hide Lo, Hi, B0, B1, B2, B3, OctetBits, MsgBits;
    MsgBitsConcat(Le16(vendor) + Le32(serial), Le16(connection));
    MsgBitsConcat(Le16(vendor), Le32(serial));
    StampBits(vendor);
    StampBits(connection);
    FourBytes(B0(serial), B1(serial), B2(serial), B3(serial));
  }

  lemma TwoBytes(a: bv8, b: bv8)
    ensures MsgBits([a, b]) == OctetBits(a) + OctetBits(b)
  {
    hide OctetBits;
    OneByte(b);
    assert [a, b][1..] == [b];
  }

  lemma FourBytes(a: bv8, b: bv8, c: bv8, d: bv8)
    ensures MsgBits([a, b, c, d]) == (OctetBits(a) + OctetBits(b)) + (OctetBits(c) + OctetBits(d))
  {
    hide OctetBits, MsgBits;
    assert [a, b, c, d] == [a, b] + [c, d];
    MsgBitsConcat([a, b], [c, d]);
    TwoBytes(a, b);
    TwoBytes(c, d);
  }

  lemma ZeroSeed()
    ensures OctetBits(0) == Zeros(8) && Bits16(0) == Zeros(16) && Bits24(0) == Zeros(24)
  {
    ZeroOctet();
    assert Lo(0) == 0 && Hi(0) == 0 && B0(0) == 0 && B1(0) == 0 && B2(0) == 0;
  }

  lemma SeedCodes(vendor: bv16, serial: bv32, connection: bv16)
    ensures var id := IdentityBits(vendor, serial, connection);
      OctetBits(PidSeedS1(vendor, serial, connection)) == Divide(G1, id, Zeros(8)) &&
      Bits16(PidSeedS3(vendor, serial, connection)) == Divide(G3, id, Zeros(16)) &&
      Bits24(PidSeedS5(vendor, serial, connection)) == Divide(G5, id, Zeros(24))
  {
    hide Divide, S1, S3, S5, PidBytes, IdentityBits, OctetBits, Bits16, Bits24;
    IdentityIsBytes(vendor, serial, connection);
    ZeroSeed();
    S1IsDivision(PidBytes(vendor, serial, connection), 0);
    S3IsDivision(PidBytes(vendor, serial, connection), 0);
    S5IsDivision(PidBytes(vendor, serial, connection), 0);
    assert 0 as bv32 & 0xFF_FFFF == 0;
  }
}
