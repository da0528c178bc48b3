// What the safety CRCs are good for: they are linear, they see every change of
// a single byte, and they tell apart any two seeds and any two rollover counts.
module CrcLaws {
  import opened Gf2
  import opened Octets
  import opened Words
  import opened Crc
  import opened SafetyCrc

  // ---- Equal bits, equal registers ----

  function XorBytes(m: seq<bv8>, n: seq<bv8>): (r: seq<bv8>)
    requires |m| == |n|
    ensures |r| == |m| && forall i :: 0 <= i < |m| ==> r[i] == m[i] ^ n[i]
  {
    seq(|m|, i requires 0 <= i < |m| => m[i] ^ n[i])
  }

  lemma {:induction false} XorMsgBits(m: seq<bv8>, n: seq<bv8>)
    requires |m| == |n|
    ensures MsgBits(XorBytes(m, n)) == Xor(MsgBits(m), MsgBits(n))
  {
    hide OctetBits, Xor;
    if m == [] {
      assert Xor(MsgBits(m), MsgBits(n)) == [];
    } else {
      assert XorBytes(m, n)[1..] == XorBytes(m[1..], n[1..]);
      XorMsgBits(m[1..], n[1..]);
      XorOctetBits(m[0], n[0]);
      XorAppend(OctetBits(m[0]), OctetBits(n[0]), MsgBits(m[1..]), MsgBits(n[1..]));
    }
  }

  // ---- Linearity ----

  lemma OctetSum(x: bv8, a: bv8, b: bv8)
    requires OctetBits(x) == Xor(OctetBits(a), OctetBits(b))
    ensures x == a ^ b
  {
    hide *;
    XorOctetBits(a, b);
    OctetBitsInjective(x, a ^ b);
  }

  lemma Bits16Sum(x: bv16, a: bv16, b: bv16)
    requires Bits16(x) == Xor(Bits16(a), Bits16(b))
    ensures x == a ^ b
  {
    hide *;
    Bits16Xor(a, b);
    Bits16Injective(x, a ^ b);
  }

  lemma ReflectedSum(x: bv32, a: bv32, b: bv32)
    requires ReflectedBits(x) == Xor(ReflectedBits(a), ReflectedBits(b))
    ensures x == a ^ b
  {
    hide *;
    ReflectedXor(a, b);
    ReflectedInjective(x, a ^ b);
  }

  lemma LinearBits(g: Bits, m: seq<bv8>, n: seq<bv8>, r: Bits, s: Bits)
    requires |g| == |r| == |s| > 0 && |m| == |n|
    ensures Divide(g, MsgBits(XorBytes(m, n)), Xor(r, s)) ==
      Xor(Divide(g, MsgBits(m), r), Divide(g, MsgBits(n), s))
  {
    hide *;
    XorMsgBits(m, n);
    DivideLinear(g, MsgBits(m), MsgBits(n), r, s);
  }

  lemma S1LinearBits(m: seq<bv8>, n: seq<bv8>, c: bv8, d: bv8)
    requires |m| == |n|
    ensures OctetBits(S1(XorBytes(m, n), c ^ d)) == Xor(OctetBits(S1(m, c)), OctetBits(S1(n, d)))
  {
    hide *;
    GeneratorsAreOdd();
    S1IsDivision(m, c);
    S1IsDivision(n, d);
    S1IsDivision(XorBytes(m, n), c ^ d);
    XorOctetBits(c, d);
    LinearBits(G1, m, n, OctetBits(c), OctetBits(d));
  }

  lemma S1Linear(m: seq<bv8>, n: seq<bv8>, c: bv8, d: bv8)
    requires |m| == |n|
    ensures S1(XorBytes(m, n), c ^ d) == S1(m, c) ^ S1(n, d)
  {
    hide *;
    S1LinearBits(m, n, c, d);
    OctetSum(S1(XorBytes(m, n), c ^ d), S1(m, c), S1(n, d));
  }

  lemma S2LinearBits(m: seq<bv8>, n: seq<bv8>, c: bv8, d: bv8)
    requires |m| == |n|
    ensures OctetBits(S2(XorBytes(m, n), c ^ d)) == Xor(OctetBits(S2(m, c)), OctetBits(S2(n, d)))
  {
    hide *;
    GeneratorsAreOdd();
    S2IsDivision(m, c);
    S2IsDivision(n, d);
    S2IsDivision(XorBytes(m, n), c ^ d);
    XorOctetBits(c, d);
    LinearBits(G2, m, n, OctetBits(c), OctetBits(d));
  }

  lemma S2Linear(m: seq<bv8>, n: seq<bv8>, c: bv8, d: bv8)
    requires |m| == |n|
    ensures S2(XorBytes(m, n), c ^ d) == S2(m, c) ^ S2(n, d)
  {
    hide *;
    S2LinearBits(m, n, c, d);
    OctetSum(S2(XorBytes(m, n), c ^ d), S2(m, c), S2(n, d));
  }

  lemma S3LinearBits(m: seq<bv8>, n: seq<bv8>, c: bv16, d: bv16)
    requires |m| == |n|
    ensures Bits16(S3(XorBytes(m, n), c ^ d)) == Xor(Bits16(S3(m, c)), Bits16(S3(n, d)))
  {
    hide *;
    GeneratorsAreOdd();
    S3IsDivision(m, c);
    S3IsDivision(n, d);
    S3IsDivision(XorBytes(m, n), c ^ d);
    Bits16Xor(c, d);
    LinearBits(G3, m, n, Bits16(c), Bits16(d));
  }

  lemma S3Linear(m: seq<bv8>, n: seq<bv8>, c: bv16, d: bv16)
    requires |m| == |n|
    ensures S3(XorBytes(m, n), c ^ d) == S3(m, c) ^ S3(n, d)
  {
    hide *;
    S3LinearBits(m, n, c, d);
    Bits16Sum(S3(XorBytes(m, n), c ^ d), S3(m, c), S3(n, d));
  }

  lemma RevXorBytes(m: seq<bv8>, n: seq<bv8>)
    requires |m| == |n|
    ensures RevAll(XorBytes(m, n)) == XorBytes(RevAll(m), RevAll(n))
  {
    hide Rev;
    forall i | 0 <= i < |m|
      ensures RevAll(XorBytes(m, n))[i] == XorBytes(RevAll(m), RevAll(n))[i]
    {
      RevXor(m[i], n[i]);
    }
  }

  lemma S4LinearBits(m: seq<bv8>, n: seq<bv8>, c: bv32, d: bv32)
    requires |m| == |n|
    ensures ReflectedBits(S4(XorBytes(m, n), c ^ d)) == Xor(ReflectedBits(S4(m, c)), ReflectedBits(S4(n, d)))
  {
    hide *;
    GeneratorsAreOdd();
    S4IsDivision(m, c);
    S4IsDivision(n, d);
    S4IsDivision(XorBytes(m, n), c ^ d);
    RevXorBytes(m, n);
    ReflectedXor(c, d);
    LinearBits(G4, RevAll(m), RevAll(n), ReflectedBits(c), ReflectedBits(d));
  }

  lemma S4Linear(m: seq<bv8>, n: seq<bv8>, c: bv32, d: bv32)
    requires |m| == |n|
    ensures S4(XorBytes(m, n), c ^ d) == S4(m, c) ^ S4(n, d)
  {
    hide *;
    S4LinearBits(m, n, c, d);
    ReflectedSum(S4(XorBytes(m, n), c ^ d), S4(m, c), S4(n, d));
  }

  lemma S5LinearBits(m: seq<bv8>, n: seq<bv8>, c: bv32, d: bv32)
    requires |m| == |n|
    ensures Bits24(S5(XorBytes(m, n), c ^ d)) == Xor(Bits24(S5(m, c)), Bits24(S5(n, d)))
  {
    hide *;
    GeneratorsAreOdd();
    S5IsDivision(m, c);
    S5IsDivision(n, d);
    S5IsDivision(XorBytes(m, n), c ^ d);
    Bits24Xor(c, d);
    LinearBits(G5, m, n, Bits24(c), Bits24(d));
  }

  lemma Mask24Xor(c: bv32, d: bv32)
    ensures Mask24(c ^ d) == Mask24(c) ^ Mask24(d)
  {}

  lemma Mask24Twice(c: bv32)
    ensures Mask24(Mask24(c)) == Mask24(c)
  {}

  // The register never leaves its twenty-four bits.
  lemma {:induction false} S5Fits(msg: seq<bv8>, c: bv32)
    requires Mask24(c) == c
    ensures Mask24(S5(msg, c)) == S5(msg, c)
    decreases |msg|
  {
    hide Mask24, S5Byte;
    if msg != [] {
      S5ByteFits(msg[0], c);
      S5Fits(msg[1..], S5Byte(msg[0], c));
    }
  }

  lemma SumFits(e: bv32, c: bv32)
    requires Mask24(e) == e
    ensures Mask24(e ^ ((c << 8) & 0xFF_FFFF)) == e ^ ((c << 8) & 0xFF_FFFF)
  {}

  lemma S5EntryFits(x: bv8)
    ensures Mask24(S5Entry(x)) == S5Entry(x)
  {
    hide S5Steps, Mask24;
    Mask24Twice(S5Steps(|OctetBits(x)|, (x as bv32) << 16));
  }

  lemma S5ByteFits(b: bv8, c: bv32)
    ensures Mask24(S5Byte(b, c)) == S5Byte(b, c)
  {
    hide *;
    S5EntryFits(B2(c) ^ b);
    SumFits(S5Entry(B2(c) ^ b), c);
    S5ByteFrom(S5Entry(B2(c) ^ b), b, c);
  }

  lemma S5RawFits(msg: seq<bv8>, preset: bv32)
    ensures Mask24(S5Raw(msg, preset)) == S5Raw(msg, preset)
  {
    hide Mask24, S5;
    LowIsMask24(preset);
    Mask24Twice(preset);
    S5Fits(msg, Mask24(preset));
  }

  lemma LowIsMask24(c: bv32)
    ensures c & 0xFF_FFFF == Mask24(c)
  {}

  lemma Bits24Sum(x: bv32, a: bv32, b: bv32)
    requires Mask24(x) == x && Mask24(a) == a && Mask24(b) == b
    requires Bits24(x) == Xor(Bits24(a), Bits24(b))
    ensures x == a ^ b
  {
    hide Bits24, Xor;
    Bits24Xor(a, b);
    Bits24Injective(x, a ^ b);
    Mask24Xor(a, b);
  }

  lemma S5RawLinear(m: seq<bv8>, n: seq<bv8>, c: bv32, d: bv32)
    requires |m| == |n|
    ensures S5Raw(XorBytes(m, n), c ^ d) == S5Raw(m, c) ^ S5Raw(n, d)
  {
    hide XorBytes, S5Raw, Mask24, Bits24, Xor;
    S5RawLinearBits(m, n, c, d);
    S5RawFits(m, c);
    S5RawFits(n, d);
    S5RawFits(XorBytes(m, n), c ^ d);
    Bits24Sum(S5Raw(XorBytes(m, n), c ^ d), S5Raw(m, c), S5Raw(n, d));
  }

  lemma S5RawLinearBits(m: seq<bv8>, n: seq<bv8>, c: bv32, d: bv32)
    requires |m| == |n|
    ensures Bits24(S5Raw(XorBytes(m, n), c ^ d)) == Xor(Bits24(S5Raw(m, c)), Bits24(S5Raw(n, d)))
  {
    hide XorBytes, S5Raw, S5, Mask24, Bits24, Xor;
    S5RawIsS5(m, c);
    S5RawIsS5(n, d);
    S5RawIsS5(XorBytes(m, n), c ^ d);
    Mask24Xor(c, d);
    S5LinearBits(m, n, Mask24(c), Mask24(d));
  }

  lemma S5RawIsS5(msg: seq<bv8>, preset: bv32)
    ensures S5Raw(msg, preset) == S5(msg, Mask24(preset))
  {
    hide S5;
  }

  // ---- A change of any one message byte changes the code ----

  lemma S1ByteSeen(msg: seq<bv8>, k: nat, v: bv8, c: bv8)
    requires k < |msg| && v != msg[k]
    ensures S1(msg[k := v], c) != S1(msg, c)
  {
    hide *;
    GeneratorsAreOdd();
    S1IsDivision(msg, c);
    S1IsDivision(msg[k := v], c);
    if S1(msg[k := v], c) == S1(msg, c) {
      ByteSeen(G1, msg, k, v, OctetBits(c));
    }
  }

  lemma S2ByteSeen(msg: seq<bv8>, k: nat, v: bv8, c: bv8)
    requires k < |msg| && v != msg[k]
    ensures S2(msg[k := v], c) != S2(msg, c)
  {
    hide *;
    GeneratorsAreOdd();
    S2IsDivision(msg, c);
    S2IsDivision(msg[k := v], c);
    if S2(msg[k := v], c) == S2(msg, c) {
      ByteSeen(G2, msg, k, v, OctetBits(c));
    }
  }

  lemma S3ByteSeen(msg: seq<bv8>, k: nat, v: bv8, c: bv16)
    requires k < |msg| && v != msg[k]
    ensures S3(msg[k := v], c) != S3(msg, c)
  {
    hide *;
    GeneratorsAreOdd();
    S3IsDivision(msg, c);
    S3IsDivision(msg[k := v], c);
    if S3(msg[k := v], c) == S3(msg, c) {
      ByteSeen(G3, msg, k, v, Bits16(c));
    }
  }

  lemma S4ByteSeen(msg: seq<bv8>, k: nat, v: bv8, c: bv32)
    requires k < |msg| && v != msg[k]
    ensures S4(msg[k := v], c) != S4(msg, c)
  {
    hide *;
    GeneratorsAreOdd();
    S4IsDivision(msg, c);
    S4IsDivision(msg[k := v], c);
    if S4(msg[k := v], c) == S4(msg, c) {
      assert RevAll(msg[k := v]) == RevAll(msg)[k := Rev(v)];
      ByteSeen(G4, RevAll(msg), k, Rev(v), ReflectedBits(c));
      RevInjective(v, msg[k]);
    }
  }

  lemma S5ByteSeen(msg: seq<bv8>, k: nat, v: bv8, c: bv32)
    requires k < |msg| && v != msg[k]
    ensures S5Raw(msg[k := v], c) != S5Raw(msg, c)
  {
    hide *;
    GeneratorsAreOdd();
    S5RawIsS5(msg, c);
    S5RawIsS5(msg[k := v], c);
    S5IsDivision(msg, Mask24(c));
    S5IsDivision(msg[k := v], Mask24(c));
    if S5Raw(msg[k := v], c) == S5Raw(msg, c) {
      ByteSeen(G5, msg, k, v, Bits24(Mask24(c)));
    }
  }

  // ---- So does a change within two, four or three bytes in a row ----

  lemma S3WindowSeen(x: seq<bv8>, y: seq<bv8>, i: nat, j: nat, c: bv16)
    requires SameOutside(x, y, i, j) && j - i <= 2 && x != y
    ensures S3(x, c) != S3(y, c)
  {
    hide Divide, MsgBits, S3, Bits16, G3;
    GeneratorsAreOdd();
    S3IsDivision(x, c);
    S3IsDivision(y, c);
    if S3(x, c) == S3(y, c) {
      WindowSeen(G3, x, y, i, j, Bits16(c));
      SameAll(x, y, i, j);
    }
  }

  lemma RevAllOutside(x: seq<bv8>, y: seq<bv8>, i: nat, j: nat)
    requires SameOutside(x, y, i, j)
    ensures SameOutside(RevAll(x), RevAll(y), i, j)
    ensures RevAll(x)[i..j] == RevAll(y)[i..j] ==> x == y
  {
    hide Rev;
    forall k | 0 <= k < |x| && !(i <= k < j)
      ensures x[k] == y[k]
    {
      assert k < i ==> x[..i][k] == y[..i][k];
      assert k >= j ==> x[j..][k - j] == y[j..][k - j];
    }
    if RevAll(x)[i..j] == RevAll(y)[i..j] {
      forall k | i <= k < j
        ensures x[k] == y[k]
      {
        assert RevAll(x)[i..j][k - i] == RevAll(y)[i..j][k - i];
        RevInjective(x[k], y[k]);
      }
    }
  }

  lemma S4WindowSeen(x: seq<bv8>, y: seq<bv8>, i: nat, j: nat, c: bv32)
    requires SameOutside(x, y, i, j) && j - i <= 4 && x != y
    ensures S4(x, c) != S4(y, c)
  {
    hide Divide, MsgBits, S4, ReflectedBits, RevAll, G4;
    GeneratorsAreOdd();
    S4IsDivision(x, c);
    S4IsDivision(y, c);
    RevAllOutside(x, y, i, j);
    if S4(x, c) == S4(y, c) {
      WindowSeen(G4, RevAll(x), RevAll(y), i, j, ReflectedBits(c));
    }
  }

  lemma S5WindowSeen(x: seq<bv8>, y: seq<bv8>, i: nat, j: nat, c: bv32)
    requires SameOutside(x, y, i, j) && j - i <= 3 && x != y
    ensures S5Raw(x, c) != S5Raw(y, c)
  {
    hide Divide, MsgBits, S5Raw, S5, Bits24, Mask24, G5;
    GeneratorsAreOdd();
    S5RawIsS5(x, c);
    S5RawIsS5(y, c);
    S5IsDivision(x, Mask24(c));
    S5IsDivision(y, Mask24(c));
    if S5Raw(x, c) == S5Raw(y, c) {
      WindowSeen(G5, x, y, i, j, Bits24(Mask24(c)));
      SameAll(x, y, i, j);
    }
  }

  // ---- Two seeds stay apart, whatever the message ----

  lemma S1SeedSeen(msg: seq<bv8>, c: bv8, d: bv8)
    requires S1(msg, c) == S1(msg, d)
    ensures c == d
  {
    hide *;
    GeneratorsAreOdd();
    S1IsDivision(msg, c);
    S1IsDivision(msg, d);
    DivideInjective(G1, MsgBits(msg), OctetBits(c), OctetBits(d));
    OctetBitsInjective(c, d);
  }

  lemma S3SeedSeen(msg: seq<bv8>, c: bv16, d: bv16)
    requires S3(msg, c) == S3(msg, d)
    ensures c == d
  {
    hide *;
    GeneratorsAreOdd();
    S3IsDivision(msg, c);
    S3IsDivision(msg, d);
    DivideInjective(G3, MsgBits(msg), Bits16(c), Bits16(d));
    Bits16Injective(c, d);
  }

  lemma S5SeedSeen(msg: seq<bv8>, c: bv32, d: bv32)
    requires S5Raw(msg, c) == S5Raw(msg, d)
    ensures Mask24(c) == Mask24(d)
  {
    hide *;
    GeneratorsAreOdd();
    S5RawIsS5(msg, c);
    S5RawIsS5(msg, d);
    S5IsDivision(msg, Mask24(c));
    S5IsDivision(msg, Mask24(d));
    DivideInjective(G5, MsgBits(msg), Bits24(Mask24(c)), Bits24(Mask24(d)));
    Bits24Same(Mask24(c), Mask24(d));
    Mask24Twice(c);
    Mask24Twice(d);
  }

  lemma Bits24Same(c: bv32, d: bv32)
    requires Bits24(c) == Bits24(d)
    ensures Mask24(c) == Mask24(d)
  {
    hide Bits24;
    Bits24Injective(c, d);
  }

  // ---- Rollover counts give distinct seeds ----

  lemma Le16Injective(a: bv16, b: bv16)
    requires Le16(a) == Le16(b)
    ensures a == b
  {
    assert Le16(a)[0] == Lo(a) && Le16(b)[0] == Lo(b);
    assert Le16(a)[1] == Hi(a) && Le16(b)[1] == Hi(b);
  }

  lemma RolloverSeedS3Injective(r: bv16, r': bv16, seed: bv16)
    requires RolloverSeedS3(r, seed) == RolloverSeedS3(r', seed)
    ensures r == r'
  {
    hide Le16, Divide, MsgBits, Bits16, S3;
    GeneratorsAreOdd();
    S3IsDivision(Le16(r), seed);
    S3IsDivision(Le16(r'), seed);
    ShortSeen(G3, Le16(r), Le16(r'), Bits16(seed));
    Le16Injective(r, r');
  }

  lemma RolloverSeedS5Injective(r: bv16, r': bv16, seed: bv32)
    requires RolloverSeedS5(r, seed) == RolloverSeedS5(r', seed)
    ensures r == r'
  {
    hide Le16, Divide, MsgBits, Bits24, S5, Mask24, S5Raw;
    GeneratorsAreOdd();
    S5RawIsS5(Le16(r), seed);
    S5RawIsS5(Le16(r'), seed);
    S5IsDivision(Le16(r), Mask24(seed));
    S5IsDivision(Le16(r'), Mask24(seed));
    ShortSeen(G5, Le16(r), Le16(r'), Bits24(Mask24(seed)));
    Le16Injective(r, r');
  }
}
