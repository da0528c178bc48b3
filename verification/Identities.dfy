// Frames of other connections: whose frame it is stands in the seeds, together
// with the rollover count.
module Identities {
  import opened Words
  import opened Crc
  import opened SafetyCrc
  import opened CrcLaws
  import opened SafetyFrame
  import opened FrameLaws

  // ---- Under which seeds a frame is taken ----

  predicate SameFold(f: Frame, s: Seeds, r: bv16, s': Seeds, r': bv16) {
    && RolloverSeedS5(r, s.s5) == RolloverSeedS5(r', s'.s5)
    && (|f.data| > 2 ==> RolloverSeedS3(r, s.s3) == RolloverSeedS3(r', s'.s3))
  }

  // An Extended frame is taken under other seeds and another rollover count
  // exactly when folding the count into the seeds makes them the same again.
  lemma FoldExact(f: Frame, s: Seeds, r: bv16, s': Seeds, r': bv16)
    ensures Decode(Encode(f, Extended, s, r), |f.data|, Extended, s', r').Valid? <==> SameFold(f, s, r, s', r')
  {
    hide *;
    var x := Encode(f, Extended, s, r);
    AcceptsExactly(x, |f.data|, Extended, s', r', f);
    var got := Decode(x, |f.data|, Extended, s', r');
    if got.Valid? {
      AcceptsExactly(x, |f.data|, Extended, s', r', got.frame);
      SameFrameSameFold(f, got.frame, s, r, s', r');
    }
    if SameFold(f, s, r, s', r') {
      SameFoldSameFrame(f, s, r, s', r');
    }
  }

  lemma SameFrameSameFold(f: Frame, f': Frame, s: Seeds, r: bv16, s': Seeds, r': bv16)
    requires |f.data| == |f'.data| && Encode(f', Extended, s', r') <= Encode(f, Extended, s, r)
    ensures SameFold(f, s, r, s', r')
  {
    hide ExtendedShort, ExtendedLong, Join, RolloverSeedS3, RolloverSeedS5;
    JoinInjective(FieldsOf(f, Extended, s, r), FieldsOf(f', Extended, s', r'));
    if |f.data| <= 2 {
      SameShort(f, f', s, r, s', r');
    } else {
      SameLong(f, f', s, r, s', r');
    }
  }

  lemma SameShort(f: Frame, f': Frame, s: Seeds, r: bv16, s': Seeds, r': bv16)
    requires ExtendedShort(f, s, r) == ExtendedShort(f', s', r')
    ensures RolloverSeedS5(r, s.s5) == RolloverSeedS5(r', s'.s5)
  {
    hide S5Raw, RolloverSeedS5, Le16, B0, B1, B2, DataMask;
    FoldSeen([DataMask(f.mode)] + f.data + Le16(f.ts), r, s.s5, r', s'.s5);
  }

  lemma SameLong(f: Frame, f': Frame, s: Seeds, r: bv16, s': Seeds, r': bv16)
    requires ExtendedLong(f, s, r) == ExtendedLong(f', s', r')
    ensures RolloverSeedS5(r, s.s5) == RolloverSeedS5(r', s'.s5) && RolloverSeedS3(r, s.s3) == RolloverSeedS3(r', s'.s3)
  {
    SameLongS5(f, f', s, r, s', r');
    SameLongS3(f, f', s, r, s', r');
  }

  lemma SameLongS5(f: Frame, f': Frame, s: Seeds, r: bv16, s': Seeds, r': bv16)
    requires ExtendedLong(f, s, r) == ExtendedLong(f', s', r')
    ensures RolloverSeedS5(r, s.s5) == RolloverSeedS5(r', s'.s5)
  {
    hide S5Raw, RolloverSeedS5, DataS3, RolloverSeedS3, Le16, B0, B1, B2, StampMask;
    FoldSeen([StampMask(f.mode)] + Complement(f.data) + Le16(f.ts), r, s.s5, r', s'.s5);
  }

  lemma SameLongS3(f: Frame, f': Frame, s: Seeds, r: bv16, s': Seeds, r': bv16)
    requires ExtendedLong(f, s, r) == ExtendedLong(f', s', r')
    ensures RolloverSeedS3(r, s.s3) == RolloverSeedS3(r', s'.s3)
  {
    hide LongS5, S3, S3Byte, RolloverSeedS3, Le16, B0, B1, B2, DataMask;
    var c, d := RolloverSeedS3(r, s.s3), RolloverSeedS3(r', s'.s3);
    Le16Injective(DataS3(f.data, f.mode, c), DataS3(f.data, f.mode, d));
    S3SeedSeen(f.data, S3Byte(DataMask(f.mode), c), S3Byte(DataMask(f.mode), d));
    S3One(DataMask(f.mode), c);
    S3One(DataMask(f.mode), d);
    S3SeedSeen([DataMask(f.mode)], c, d);
  }

  // A code that is the same byte for byte comes from the same folded seed.
  lemma FoldSeen(m: seq<bv8>, r: bv16, s5: bv32, r': bv16, s5': bv32)
    requires B0(S5Raw(m, RolloverSeedS5(r, s5))) == B0(S5Raw(m, RolloverSeedS5(r', s5')))
    requires B1(S5Raw(m, RolloverSeedS5(r, s5))) == B1(S5Raw(m, RolloverSeedS5(r', s5')))
    requires B2(S5Raw(m, RolloverSeedS5(r, s5))) == B2(S5Raw(m, RolloverSeedS5(r', s5')))
    ensures RolloverSeedS5(r, s5) == RolloverSeedS5(r', s5')
  {
    hide B0, B1, B2, S5Raw, Le16, Mask24;
    var c, d := RolloverSeedS5(r, s5), RolloverSeedS5(r', s5');
    SameCode(m, m, c, d);
    S5SeedSeen(m, c, d);
    S5RawFits(Le16(r), s5);
    S5RawFits(Le16(r'), s5');
  }

  lemma SameFoldSameFrame(f: Frame, s: Seeds, r: bv16, s': Seeds, r': bv16)
    requires SameFold(f, s, r, s', r')
    ensures Encode(f, Extended, s', r') == Encode(f, Extended, s, r)
  {
    hide S5Raw, RolloverSeedS5, RolloverSeedS3, DataS3, Le16, B0, B1, B2, DataMask, StampMask, Join;
  }

  // ---- Connections between the same two devices ----

  lemma {:induction false} S3Concat(a: seq<bv8>, b: seq<bv8>, c: bv16)
    ensures S3(a + b, c) == S3(b, S3(a, c))
    decreases |a|
  {
    hide S3Byte;
    if a == [] {
      assert a + b == b;
    } else {
      assert (a + b)[1..] == a[1..] + b;
      S3Concat(a[1..], b, S3Byte(a[0], c));
    }
  }

  lemma {:induction false} S5Concat(a: seq<bv8>, b: seq<bv8>, c: bv32)
    ensures S5(a + b, c) == S5(b, S5(a, c))
    decreases |a|
  {
    hide S5Byte;
    if a == [] {
      assert a + b == b;
    } else {
      assert (a + b)[1..] == a[1..] + b;
      S5Concat(a[1..], b, S5Byte(a[0], c));
    }
  }

  lemma S5RawConcat(a: seq<bv8>, b: seq<bv8>, c: bv32)
    ensures S5Raw(a + b, c) == S5Raw(b, S5Raw(a, c))
  {
    hide S5, Mask24;
    S5RawIsS5(a + b, c);
    S5RawIsS5(a, c);
    S5RawIsS5(b, S5Raw(a, c));
    S5RawFits(a, c);
    S5Concat(a, b, Mask24(c));
  }

  // Two connection serial numbers never lead to the same S3 or S5 seed.
  lemma PidSeedsApart(vendor: bv16, serial: bv32, c: bv16, d: bv16)
    requires c != d
    ensures PidSeedS3(vendor, serial, c) != PidSeedS3(vendor, serial, d)
    ensures PidSeedS5(vendor, serial, c) != PidSeedS5(vendor, serial, d)
  {
    hide S3, S5Raw, Le16, Le32;
    var device := Le16(vendor) + Le32(serial);
    S3Concat(device, Le16(c), 0);
    S3Concat(device, Le16(d), 0);
    S5RawConcat(device, Le16(c), 0);
    S5RawConcat(device, Le16(d), 0);
    if PidSeedS3(vendor, serial, c) == PidSeedS3(vendor, serial, d) {
      RolloverSeedS3Injective(c, d, S3(device, 0));
    }
    if PidSeedS5(vendor, serial, c) == PidSeedS5(vendor, serial, d) {
      RolloverSeedS5Injective(c, d, S5Raw(device, 0));
    }
  }

  function SeedsFor(vendor: bv16, serial: bv32, connection: bv16): Seeds {
    Seeds(PidSeedS1(vendor, serial, connection), PidSeedS3(vendor, serial, connection),
      PidSeedS5(vendor, serial, connection))
  }

  // So an Extended frame of one connection is never taken on another connection
  // of the same producer, as long as both have counted the same rollovers.
  lemma ForeignFrameRefused(f: Frame, vendor: bv16, serial: bv32, c: bv16, d: bv16, r: bv16)
    ensures Decode(Encode(f, Extended, SeedsFor(vendor, serial, c), r), |f.data|, Extended,
      SeedsFor(vendor, serial, d), r).Valid?
      <==> c == d
  {
    hide Encode, Decode, PidSeedS1, PidSeedS3, PidSeedS5, RolloverSeedS3;
    hide S5Raw, Le16, Mask24, PidBytes;
    var s, s' := SeedsFor(vendor, serial, c), SeedsFor(vendor, serial, d);
    FoldExact(f, s, r, s', r);
    if c != d {
      PidSeedsApart(vendor, serial, c, d);
      PidFits(vendor, serial, c);
      PidFits(vendor, serial, d);
      if RolloverSeedS5(r, s.s5) == RolloverSeedS5(r, s'.s5) {
        S5SeedSeen(Le16(r), s.s5, s'.s5);
      }
    }
  }

  lemma PidFits(vendor: bv16, serial: bv32, c: bv16)
    ensures Mask24(PidSeedS5(vendor, serial, c)) == PidSeedS5(vendor, serial, c)
  {
    hide S5Raw, PidBytes, Mask24;
    S5RawFits(PidBytes(vendor, serial, c), 0);
  }
}
