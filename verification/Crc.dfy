// The five safety CRCs as they are computed, byte by byte from tables, and
// what they are: remainders of long division over GF(2).
module Crc {
  import opened Gf2
  import opened Octets
  import opened Words
  import S1Table
  import S2Table
  import S3Table

  // ---- One byte of each loop ----

  function S4Step(c: bv32): bv32 {
    if c & 1 != 0 then (c >> 1) ^ 0xEDB8_8320 else c >> 1
  }

  function S4Steps(n: nat, c: bv32): bv32 {
    if n == 0 then c else S4Steps(n - 1, S4Step(c))
  }

  // Entry i of the table that the S4 generator fills.
  function S4Entry(i: bv8): bv32 { S4Steps(|OctetBits(i)|, i as bv32) }

  // The S5 generator lets the register run into the top byte of its word and
  // masks it only when the entry is stored.
  function S5Step(c: bv32): bv32 {
    if c & 0x80_0000 != 0 then (c << 1) ^ 0x5D_6DCB else c << 1
  }

  function S5Steps(n: nat, c: bv32): bv32 {
    if n == 0 then c else S5Steps(n - 1, S5Step(c))
  }

  function Mask24(c: bv32): bv32 { c & 0xFF_FFFF }

  function S5Entry(i: bv8): bv32 { Mask24(S5Steps(|OctetBits(i)|, (i as bv32) << 16)) }

  function S3Byte(b: bv8, c: bv16): bv16 { S3Table.Entry(Hi(c) ^ b) ^ (c << 8) }

  function S4Byte(b: bv8, c: bv32): bv32 { S4Entry(B0(c) ^ b) ^ (c >> 8) }

  function S5Byte(b: bv8, c: bv32): bv32 { S5Entry(B2(c) ^ b) ^ ((c << 8) & 0xFF_FFFF) }

  // ---- Whole messages ----

  function S1(msg: seq<bv8>, c: bv8): bv8
    decreases |msg|
  {
    if msg == [] then c else S1(msg[1..], S1Table.Entry(c ^ msg[0]))
  }

  function S2(msg: seq<bv8>, c: bv8): bv8
    decreases |msg|
  {
    if msg == [] then c else S2(msg[1..], S2Table.Entry(c ^ msg[0]))
  }

  function S3(msg: seq<bv8>, c: bv16): bv16
    decreases |msg|
  {
    if msg == [] then c else S3(msg[1..], S3Byte(msg[0], c))
  }

  function S4(msg: seq<bv8>, c: bv32): bv32
    decreases |msg|
  {
    if msg == [] then c else S4(msg[1..], S4Byte(msg[0], c))
  }

  function S5(msg: seq<bv8>, c: bv32): bv32
    decreases |msg|
  {
    if msg == [] then c else S5(msg[1..], S5Byte(msg[0], c))
  }

  function S5Raw(msg: seq<bv8>, preset: bv32): bv32 { S5(msg, preset & 0xFF_FFFF) }

  // ---- The generators ----

  const G1: Bits := OctetBits(0x37)
  const G2: Bits := OctetBits(0x3B)
  const G3: Bits := Bits16(0x080F)
  const G4: Bits := ReflectedBits(0xEDB8_8320)
  const G5: Bits := Bits24(0x5D_6DCB)

  // Every one of them has constant term 1.
  lemma GeneratorsAreOdd()
    ensures |G1| == |G2| == 8 && |G3| == 16 && |G4| == 32 && |G5| == 24
    ensures G1[7] && G2[7] && G3[15] && G4[31] && G5[23]
  {}

  // ---- A byte of division, by table ----

  lemma Chunk(g: Bits, r: Bits, b: bv8, top: bv8, entry: Bits, rest: Bits)
    requires |g| == |r| == |entry| == |rest| >= 8
    requires r[..8] == OctetBits(top) && r[8..] + Zeros(8) == rest
    requires Shifts(g, 8, Pad(OctetBits(top ^ b), |r|)) == entry
    ensures Divide(g, OctetBits(b), r) == Xor(entry, rest)
  {
    XorOctetBits(top, b);
    DivideChunk(g, OctetBits(b), r);
  }

  lemma XorNothing(a: Bits)
    ensures Xor(a, Zeros(|a|)) == a
  {}

  // ---- S1 ----

  lemma S1StepBits(c: bv8)
    ensures OctetBits(S1Table.Step(c)) == Shift(G1, OctetBits(c))
  {
    UpOctetBits(c, false);
    XorOctetBits(c << 1, 0x37);
    OctetMasks(c);
  }

  function S1Steps(n: nat, c: bv8): bv8 {
    if n == 0 then c else S1Steps(n - 1, S1Table.Step(c))
  }

  lemma {:induction false} S1StepsBits(n: nat, c: bv8)
    ensures OctetBits(S1Steps(n, c)) == Shifts(G1, n, OctetBits(c))
  {
    if n > 0 {
      S1StepBits(c);
      S1StepsBits(n - 1, S1Table.Step(c));
    }
  }

  lemma S1TwoSteps(n: nat, c: bv8)
    requires n >= 2
    ensures S1Steps(n, c) == S1Steps(n - 2, S1Table.Step(S1Table.Step(c)))
  {
    hide S1Table.Step;
  }

  lemma S1EightSteps(c: bv8)
    ensures S1Steps(8, c) == S1Table.Steps8(c)
  {
    hide S1Table.Step;
    var c2 := S1Table.Step(S1Table.Step(c));
    var c4 := S1Table.Step(S1Table.Step(c2));
    S1TwoSteps(8, c);
    S1TwoSteps(6, c2);
    S1TwoSteps(4, c4);
    S1TwoSteps(2, S1Table.Step(S1Table.Step(c4)));
  }

  lemma S1EntryBits(x: bv8)
    ensures Shifts(G1, 8, Pad(OctetBits(x), 8)) == OctetBits(S1Table.Entry(x))
  {
    S1StepsBits(8, x);
    S1Table.EntryIsEightSteps(x);
    S1EightSteps(x);
    assert Pad(OctetBits(x), 8) == OctetBits(x);
  }

  lemma S1ByteBits(b: bv8, c: bv8)
    ensures OctetBits(S1Table.Entry(c ^ b)) == Divide(G1, OctetBits(b), OctetBits(c))
  {
    S1EntryBits(c ^ b);
    Chunk(G1, OctetBits(c), b, c, OctetBits(S1Table.Entry(c ^ b)), Zeros(8));
    XorNothing(OctetBits(S1Table.Entry(c ^ b)));
  }

  lemma {:induction false} S1IsDivision(msg: seq<bv8>, c: bv8)
    ensures OctetBits(S1(msg, c)) == Divide(G1, MsgBits(msg), OctetBits(c))
    decreases |msg|
  {
    if msg != [] {
      DivideByte(G1, msg, OctetBits(c));
      S1ByteBits(msg[0], c);
      S1IsDivision(msg[1..], S1Table.Entry(c ^ msg[0]));
    }
  }

  // ---- S2 ----

  lemma S2StepBits(c: bv8)
    ensures OctetBits(S2Table.Step(c)) == Shift(G2, OctetBits(c))
  {
    UpOctetBits(c, false);
    XorOctetBits(c << 1, 0x3B);
    OctetMasks(c);
  }

  function S2Steps(n: nat, c: bv8): bv8 {
    if n == 0 then c else S2Steps(n - 1, S2Table.Step(c))
  }

  lemma {:induction false} S2StepsBits(n: nat, c: bv8)
    ensures OctetBits(S2Steps(n, c)) == Shifts(G2, n, OctetBits(c))
  {
    if n > 0 {
      S2StepBits(c);
      S2StepsBits(n - 1, S2Table.Step(c));
    }
  }

  lemma S2TwoSteps(n: nat, c: bv8)
    requires n >= 2
    ensures S2Steps(n, c) == S2Steps(n - 2, S2Table.Step(S2Table.Step(c)))
  {
    hide S2Table.Step;
  }

  lemma S2EightSteps(c: bv8)
    ensures S2Steps(8, c) == S2Table.Steps8(c)
  {
    hide S2Table.Step;
    var c2 := S2Table.Step(S2Table.Step(c));
    var c4 := S2Table.Step(S2Table.Step(c2));
    S2TwoSteps(8, c);
    S2TwoSteps(6, c2);
    S2TwoSteps(4, c4);
    S2TwoSteps(2, S2Table.Step(S2Table.Step(c4)));
  }

  lemma S2EntryBits(x: bv8)
    ensures Shifts(G2, 8, Pad(OctetBits(x), 8)) == OctetBits(S2Table.Entry(x))
  {
    S2StepsBits(8, x);
    S2Table.EntryIsEightSteps(x);
    S2EightSteps(x);
    assert Pad(OctetBits(x), 8) == OctetBits(x);
  }

  lemma S2ByteBits(b: bv8, c: bv8)
    ensures OctetBits(S2Table.Entry(c ^ b)) == Divide(G2, OctetBits(b), OctetBits(c))
  {
    S2EntryBits(c ^ b);
    Chunk(G2, OctetBits(c), b, c, OctetBits(S2Table.Entry(c ^ b)), Zeros(8));
    XorNothing(OctetBits(S2Table.Entry(c ^ b)));
  }

  lemma {:induction false} S2IsDivision(msg: seq<bv8>, c: bv8)
    ensures OctetBits(S2(msg, c)) == Divide(G2, MsgBits(msg), OctetBits(c))
    decreases |msg|
  {
    if msg != [] {
      DivideByte(G2, msg, OctetBits(c));
      S2ByteBits(msg[0], c);
      S2IsDivision(msg[1..], S2Table.Entry(c ^ msg[0]));
    }
  }

  // ---- S3 ----

  function S3Steps(n: nat, c: bv16): bv16 {
    if n == 0 then c else S3Steps(n - 1, S3Table.Step(c))
  }

  lemma {:induction false} S3StepsBits(n: nat, c: bv16)
    ensures Bits16(S3Steps(n, c)) == Shifts(G3, n, Bits16(c))
  {
    if n > 0 {
      Bits16Step(c, 0x080F);
      S3StepsBits(n - 1, S3Table.Step(c));
    }
  }

  lemma S3TwoSteps(n: nat, c: bv16)
    requires n >= 2
    ensures S3Steps(n, c) == S3Steps(n - 2, S3Table.Step(S3Table.Step(c)))
  {
    hide S3Table.Step;
  }

  lemma S3EightSteps(c: bv16)
    ensures S3Steps(8, c) == S3Table.Steps8(c)
  {
    hide S3Table.Step;
    var c2 := S3Table.Step(S3Table.Step(c));
    var c4 := S3Table.Step(S3Table.Step(c2));
    S3TwoSteps(8, c);
    S3TwoSteps(6, c2);
    S3TwoSteps(4, c4);
    S3TwoSteps(2, S3Table.Step(S3Table.Step(c4)));
  }

  lemma Align16(x: bv8)
    ensures Hi((x as bv16) << 8) == x && Lo((x as bv16) << 8) == 0
  {}

  lemma S3EntryBits(x: bv8)
    ensures Shifts(G3, 8, Pad(OctetBits(x), 16)) == Bits16(S3Table.Entry(x))
  {
    S3StepsBits(8, (x as bv16) << 8);
    S3Table.EntryIsEightSteps(x);
    S3EightSteps((x as bv16) << 8);
    Align16(x);
    ZeroOctet();
  }

  lemma Chunk16(g: Bits, b: bv8, c: bv16, e: bv16)
    requires |g| == 16 && Shifts(g, 8, Pad(OctetBits(Hi(c) ^ b), 16)) == Bits16(e)
    ensures Divide(g, OctetBits(b), Bits16(c)) == Xor(Bits16(e), Bits16(c << 8))
  {
    hide *;
    Bits16Next(c);
    Bits16Top(c);
    Chunk(g, Bits16(c), b, Hi(c), Bits16(e), Bits16(c << 8));
  }

  lemma S3ByteBits(b: bv8, c: bv16)
    ensures Bits16(S3Byte(b, c)) == Divide(G3, OctetBits(b), Bits16(c))
  {
    S3EntryBits(Hi(c) ^ b);
    Bits16Xor(S3Table.Entry(Hi(c) ^ b), c << 8);
    Chunk16(G3, b, c, S3Table.Entry(Hi(c) ^ b));
  }

  lemma {:induction false} S3IsDivision(msg: seq<bv8>, c: bv16)
    ensures Bits16(S3(msg, c)) == Divide(G3, MsgBits(msg), Bits16(c))
    decreases |msg|
  {
    if msg != [] {
      DivideByte(G3, msg, Bits16(c));
      S3ByteBits(msg[0], c);
      S3IsDivision(msg[1..], S3Byte(msg[0], c));
    }
  }

  // ---- S4 ----

  lemma {:induction false} S4StepsBits(n: nat, c: bv32)
    ensures ReflectedBits(S4Steps(n, c)) == Shifts(G4, n, ReflectedBits(c))
  {
    if n > 0 {
      ReflectedStep(c, 0xEDB8_8320);
      S4StepsBits(n - 1, S4Step(c));
    }
  }

  lemma Align32(x: bv8)
    ensures B0(x as bv32) == x && B1(x as bv32) == 0 && B2(x as bv32) == 0 && B3(x as bv32) == 0
  {}

  lemma Align32Bits(x: bv8)
    ensures ReflectedBits(x as bv32) == Pad(OctetBits(Rev(x)), 32)
  {
    Align32(x);
    RevZero();
    ZeroOctet();
  }

  lemma S4EntryBits(x: bv8)
    ensures Shifts(G4, 8, Pad(OctetBits(Rev(x)), 32)) == ReflectedBits(S4Entry(x))
  {
    S4StepsBits(|OctetBits(x)|, x as bv32);
    Align32Bits(x);
  }

  lemma Chunk32(g: Bits, b: bv8, c: bv32, e: bv32)
    requires |g| == 32 && Shifts(g, 8, Pad(OctetBits(Rev(B0(c)) ^ b), 32)) == ReflectedBits(e)
    ensures Divide(g, OctetBits(b), ReflectedBits(c)) == Xor(ReflectedBits(e), ReflectedBits(c >> 8))
  {
    hide *;
    ReflectedBitsNext(c);
    ReflectedBitsTop(c);
    Chunk(g, ReflectedBits(c), b, Rev(B0(c)), ReflectedBits(e), ReflectedBits(c >> 8));
  }

  lemma S4ByteXor(b: bv8, c: bv32)
    ensures ReflectedBits(S4Byte(b, c)) == Xor(ReflectedBits(S4Entry(B0(c) ^ b)), ReflectedBits(c >> 8))
  {
    hide S4Entry, ReflectedBits, Xor;
    ReflectedXor(S4Entry(B0(c) ^ b), c >> 8);
  }

  lemma S4EntryFor(b: bv8, c: bv32)
    ensures Shifts(G4, 8, Pad(OctetBits(Rev(B0(c)) ^ Rev(b)), 32)) == ReflectedBits(S4Entry(B0(c) ^ b))
  {
    hide *;
    S4EntryBits(B0(c) ^ b);
    RevXor(B0(c), b);
  }

  lemma S4ByteBits(b: bv8, c: bv32)
    ensures ReflectedBits(S4Byte(b, c)) == Divide(G4, OctetBits(Rev(b)), ReflectedBits(c))
  {
    hide *;
    GeneratorsAreOdd();
    S4ByteXor(b, c);
    S4EntryFor(b, c);
    Chunk32(G4, Rev(b), c, S4Entry(B0(c) ^ b));
  }

  // The reflected code takes the message bytes, too, low bit first.
  function RevAll(msg: seq<bv8>): (r: seq<bv8>)
    ensures |r| == |msg| && forall i :: 0 <= i < |msg| ==> r[i] == Rev(msg[i])
  {
    seq(|msg|, i requires 0 <= i < |msg| => Rev(msg[i]))
  }

  lemma {:induction false} S4IsDivision(msg: seq<bv8>, c: bv32)
    ensures ReflectedBits(S4(msg, c)) == Divide(G4, MsgBits(RevAll(msg)), ReflectedBits(c))
    decreases |msg|
  {
    hide S4Byte, ReflectedBits, OctetBits, Rev;
    if msg != [] {
      DivideByte(G4, RevAll(msg), ReflectedBits(c));
      S4ByteBits(msg[0], c);
      S4IsDivision(msg[1..], S4Byte(msg[0], c));
      assert RevAll(msg)[1..] == RevAll(msg[1..]);
    }
  }

  // ---- S5 ----

  lemma {:induction false} S5StepsBits(n: nat, c: bv32)
    ensures Bits24(S5Steps(n, c)) == Shifts(G5, n, Bits24(c))
  {
    if n > 0 {
      Bits24Step(c, 0x5D_6DCB);
      S5StepsBits(n - 1, S5Step(c));
    }
  }

  lemma Align24(x: bv8)
    ensures B2((x as bv32) << 16) == x && B1((x as bv32) << 16) == 0 && B0((x as bv32) << 16) == 0
  {}

  lemma Align24Bits(x: bv8)
    ensures Bits24((x as bv32) << 16) == Pad(OctetBits(x), 24)
  {
    Align24(x);
    ZeroOctet();
  }

  lemma Bits24Mask(c: bv32)
    ensures Bits24(Mask24(c)) == Bits24(c)
  {
    Bits24Low(c);
  }

  // Masking at the end instead of in every step changes nothing.
  lemma S5EntryBits(x: bv8)
    ensures Shifts(G5, 8, Pad(OctetBits(x), 24)) == Bits24(S5Entry(x))
  {
    hide Bits24, Mask24, S5Steps, Shifts, Pad;
    S5StepsBits(|OctetBits(x)|, (x as bv32) << 16);
    Align24Bits(x);
    Bits24Mask(S5Steps(|OctetBits(x)|, (x as bv32) << 16));
  }

  lemma Chunk24(g: Bits, b: bv8, c: bv32, e: bv32)
    requires |g| == 24 && Shifts(g, 8, Pad(OctetBits(B2(c) ^ b), 24)) == Bits24(e)
    ensures Divide(g, OctetBits(b), Bits24(c)) == Xor(Bits24(e), Bits24(c << 8))
  {
    hide *;
    Bits24Next(c);
    Bits24Top(c);
    Chunk(g, Bits24(c), b, B2(c), Bits24(e), Bits24(c << 8));
  }

  lemma S5ByteXor(b: bv8, c: bv32)
    ensures Bits24(S5Byte(b, c)) == Xor(Bits24(S5Entry(B2(c) ^ b)), Bits24((c << 8) & 0xFF_FFFF))
  {
    hide S5Entry, Bits24, Xor;
    Bits24Xor(S5Entry(B2(c) ^ b), (c << 8) & 0xFF_FFFF);
  }

  lemma S5ByteBits(b: bv8, c: bv32)
    ensures Bits24(S5Byte(b, c)) == Divide(G5, OctetBits(b), Bits24(c))
  {
    hide *;
    GeneratorsAreOdd();
    S5ByteXor(b, c);
    Bits24Low(c << 8);
    S5EntryBits(B2(c) ^ b);
    Chunk24(G5, b, c, S5Entry(B2(c) ^ b));
  }

  lemma {:induction false} S5IsDivision(msg: seq<bv8>, c: bv32)
    ensures Bits24(S5(msg, c)) == Divide(G5, MsgBits(msg), Bits24(c))
    decreases |msg|
  {
    if msg != [] {
      DivideByte(G5, msg, Bits24(c));
      S5ByteBits(msg[0], c);
      S5IsDivision(msg[1..], S5Byte(msg[0], c));
    }
  }
}
