// The words the CRC registers are kept in, as bit strings, highest power first.
module Words {
  import opened Gf2
  import opened Octets

  // Joining the bits of adjacent bytes.
  lemma XorAppend(a: Bits, b: Bits, c: Bits, d: Bits)
    requires |a| == |b| && |c| == |d|
    ensures Xor(a + c, b + d) == Xor(a, b) + Xor(c, d)
  {}

  lemma CarryAcross(x: Bits, rest: Bits, y: Bits, next: Bits)
    requires |x| == |y| > 0 && |rest| == |next| > 0
    requires y == x[1..] + [rest[0]] && next == rest[1..] + [false]
    ensures y + next == (x + rest)[1..] + [false]
  {}

  function Quad(a: Bits, b: Bits, c: Bits, d: Bits): (r: Bits)
    ensures |r| == |a| + |b| + |c| + |d|
  {
    a + (b + (c + d))
  }

  lemma XorQuad(a: Bits, b: Bits, c: Bits, d: Bits, a': Bits, b': Bits, c': Bits, d': Bits)
    requires |a| == |a'| && |b| == |b'| && |c| == |c'| && |d| == |d'|
    ensures Xor(Quad(a, b, c, d), Quad(a', b', c', d')) ==
      Quad(Xor(a, a'), Xor(b, b'), Xor(c, c'), Xor(d, d'))
  {
    XorAppend(c, c', d, d');
    XorAppend(b, b', c + d, c' + d');
    XorAppend(a, a', b + (c + d), b' + (c' + d'));
  }

  lemma CarryQuad(a: Bits, b: Bits, c: Bits, d: Bits, a': Bits, b': Bits, c': Bits, d': Bits)
    requires |a| == |a'| == |b| == |b'| == |c| == |c'| == |d| == |d'| > 0
    requires a' == a[1..] + [b[0]] && b' == b[1..] + [c[0]] && c' == c[1..] + [d[0]] && d' == d[1..] + [false]
    ensures Quad(a', b', c', d') == Quad(a, b, c, d)[1..] + [false]
  {
    CarryAcross(c, d, c', d');
    CarryAcross(b, c + d, b', c' + d');
    CarryAcross(a, b + (c + d), a', b' + (c' + d'));
  }

  lemma QuadInjective(a: Bits, b: Bits, c: Bits, d: Bits, a': Bits, b': Bits, c': Bits, d': Bits)
    requires |a| == |a'| && |b| == |b'| && |c| == |c'| && |d| == |d'|
    requires Quad(a, b, c, d) == Quad(a', b', c', d')
    ensures a == a' && b == b' && c == c' && d == d'
  {
    PairInjective(a, b + (c + d), a', b' + (c' + d'));
    PairInjective(b, c + d, b', c' + d');
    PairInjective(c, d, c', d');
  }

  lemma PairInjective(a: Bits, b: Bits, a': Bits, b': Bits)
    requires |a| == |a'| && a + b == a' + b'
    ensures a == a' && b == b'
  {
    assert (a + b)[..|a|] == a && (a' + b')[..|a|] == a';
    assert (a + b)[|a|..] == b && (a' + b')[|a|..] == b';
  }

  // ---- Sixteen bits ----

  function Hi(c: bv16): bv8 { (c >> 8) as bv8 }

  function Lo(c: bv16): bv8 { (c & 0xFF) as bv8 }

  function Bits16(c: bv16): (r: Bits)
    ensures |r| == 16
  {
    OctetBits(Hi(c)) + OctetBits(Lo(c))
  }

  // Little-endian, as the words stand in messages.
  function Le16(v: bv16): (r: seq<bv8>)
    ensures |r| == 2
  {
    [Lo(v), Hi(v)]
  }

  function Word(lo: bv8, hi: bv8): bv16 { (lo as bv16) | ((hi as bv16) << 8) }

  function Read16(b: seq<bv8>): bv16
    requires |b| >= 2
  {
    Word(b[0], b[1])
  }

  lemma WordOfBytes(v: bv16)
    ensures Word(Lo(v), Hi(v)) == v
  {}

  lemma BytesOfWord(lo: bv8, hi: bv8)
    ensures Lo(Word(lo, hi)) == lo && Hi(Word(lo, hi)) == hi
  {}

  lemma Le16Read16(b: seq<bv8>)
    requires |b| == 2
    ensures Le16(Read16(b)) == b
  {
    hide Word, Lo, Hi;
    BytesOfWord(b[0], b[1]);
  }

  lemma Read16Le16(v: bv16)
    ensures Read16(Le16(v)) == v
  {
    hide Word, Lo, Hi;
    WordOfBytes(v);
  }

  lemma HiXor(c: bv16, d: bv16)
    ensures Hi(c ^ d) == Hi(c) ^ Hi(d)
  {}

  lemma LoXor(c: bv16, d: bv16)
    ensures Lo(c ^ d) == Lo(c) ^ Lo(d)
  {}

  lemma Up16(c: bv16)
    ensures Hi(c << 1) == Up(Hi(c), At(Lo(c), 0))
    ensures Lo(c << 1) == Up(Lo(c), false)
  {}

  lemma Top16(c: bv16)
    ensures At(Hi(c), 0) == (c & 0x8000 != 0)
  {}

  lemma Next16(c: bv16)
    ensures Hi(c << 8) == Lo(c) && Lo(c << 8) == 0
  {}

  lemma Bits16Xor(c: bv16, d: bv16)
    ensures Bits16(c ^ d) == Xor(Bits16(c), Bits16(d))
  {
    HiXor(c, d);
    LoXor(c, d);
    XorOctetBits(Hi(c), Hi(d));
    XorOctetBits(Lo(c), Lo(d));
    XorAppend(OctetBits(Hi(c)), OctetBits(Hi(d)), OctetBits(Lo(c)), OctetBits(Lo(d)));
  }

  lemma Bits16Up(c: bv16)
    ensures Bits16(c << 1) == Bits16(c)[1..] + [false]
  {
    Up16(c);
    UpOctetBits(Hi(c), At(Lo(c), 0));
    UpOctetBits(Lo(c), false);
    CarryAcross(OctetBits(Hi(c)), OctetBits(Lo(c)), OctetBits(Hi(c << 1)), OctetBits(Lo(c << 1)));
  }

  lemma Bits16Step(c: bv16, poly: bv16)
    ensures Bits16(if c & 0x8000 != 0 then (c << 1) ^ poly else c << 1) ==
      Shift(Bits16(poly), Bits16(c))
  {
    Top16(c);
    Bits16Up(c);
    Bits16Xor(c << 1, poly);
  }

  lemma Bits16Next(c: bv16)
    ensures Bits16(c << 8) == Bits16(c)[8..] + Zeros(8)
  {
    Next16(c);
    ZeroOctet();
  }

  lemma Bits16Top(c: bv16)
    ensures Bits16(c)[..8] == OctetBits(Hi(c))
  {}

  lemma Bits16Injective(c: bv16, d: bv16)
    requires Bits16(c) == Bits16(d)
    ensures c == d
  {
    assert OctetBits(Hi(c)) == Bits16(c)[..8] && OctetBits(Hi(d)) == Bits16(d)[..8];
    assert OctetBits(Lo(c)) == Bits16(c)[8..] && OctetBits(Lo(d)) == Bits16(d)[8..];
    OctetBitsInjective(Hi(c), Hi(d));
    OctetBitsInjective(Lo(c), Lo(d));
  }

  // ---- Bytes of a 32-bit word ----

  function B0(c: bv32): bv8 { (c & 0xFF) as bv8 }

  function B1(c: bv32): bv8 { ((c >> 8) & 0xFF) as bv8 }

  function B2(c: bv32): bv8 { ((c >> 16) & 0xFF) as bv8 }

  function B3(c: bv32): bv8 { ((c >> 24) & 0xFF) as bv8 }

  function Le32(v: bv32): (r: seq<bv8>)
    ensures |r| == 4
  {
    [B0(v), B1(v), B2(v), B3(v)]
  }

  function Read32(b: seq<bv8>): bv32
    requires |b| == 4
  {
    Word32(b[0], b[1], b[2], b[3])
  }

  function Word32(b0: bv8, b1: bv8, b2: bv8, b3: bv8): bv32 {
    (b0 as bv32) | ((b1 as bv32) << 8) | ((b2 as bv32) << 16) | ((b3 as bv32) << 24)
  }

  lemma Word32OfBytes(v: bv32)
    ensures Word32(B0(v), B1(v), B2(v), B3(v)) == v
  {}

  lemma BytesOfWord32(b0: bv8, b1: bv8, b2: bv8, b3: bv8)
    ensures B0(Word32(b0, b1, b2, b3)) == b0 && B1(Word32(b0, b1, b2, b3)) == b1
    ensures B2(Word32(b0, b1, b2, b3)) == b2 && B3(Word32(b0, b1, b2, b3)) == b3
  {}

  lemma Read32Le32(v: bv32)
    ensures Read32(Le32(v)) == v
  {
    hide Word32, B0, B1, B2, B3;
    Word32OfBytes(v);
  }

  lemma Le32Read32(b: seq<bv8>)
    requires |b| == 4
    ensures Le32(Read32(b)) == b
  {
    hide Word32, B0, B1, B2, B3;
    BytesOfWord32(b[0], b[1], b[2], b[3]);
  }

  lemma B0Xor(c: bv32, d: bv32)
    ensures B0(c ^ d) == B0(c) ^ B0(d)
  {}

  lemma B1Xor(c: bv32, d: bv32)
    ensures B1(c ^ d) == B1(c) ^ B1(d)
  {}

  lemma B2Xor(c: bv32, d: bv32)
    ensures B2(c ^ d) == B2(c) ^ B2(d)
  {}

  lemma B3Xor(c: bv32, d: bv32)
    ensures B3(c ^ d) == B3(c) ^ B3(d)
  {}

  // ---- Twenty-four bits; the top byte of the word is not part of them ----

  function Bits24(c: bv32): (r: Bits)
    ensures |r| == 24
  {
    OctetBits(B2(c)) + (OctetBits(B1(c)) + OctetBits(B0(c)))
  }

  lemma Up24(c: bv32)
    ensures B2(c << 1) == Up(B2(c), At(B1(c), 0))
    ensures B1(c << 1) == Up(B1(c), At(B0(c), 0))
    ensures B0(c << 1) == Up(B0(c), false)
  {}

  lemma Top24(c: bv32)
    ensures At(B2(c), 0) == (c & 0x80_0000 != 0)
  {}

  lemma Next24(c: bv32)
    ensures B2(c << 8) == B1(c) && B1(c << 8) == B0(c) && B0(c << 8) == 0
  {}

  lemma Low24(c: bv32)
    ensures B2(c & 0xFF_FFFF) == B2(c) && B1(c & 0xFF_FFFF) == B1(c) && B0(c & 0xFF_FFFF) == B0(c)
  {}

  lemma Bits24Xor(c: bv32, d: bv32)
    ensures Bits24(c ^ d) == Xor(Bits24(c), Bits24(d))
  {
    B0Xor(c, d);
    B1Xor(c, d);
    B2Xor(c, d);
    var x2, x1, x0 := OctetBits(B2(c)), OctetBits(B1(c)), OctetBits(B0(c));
    var y2, y1, y0 := OctetBits(B2(d)), OctetBits(B1(d)), OctetBits(B0(d));
    XorOctetBits(B2(c), B2(d));
    XorOctetBits(B1(c), B1(d));
    XorOctetBits(B0(c), B0(d));
    XorAppend(x1, y1, x0, y0);
    XorAppend(x2, y2, x1 + x0, y1 + y0);
  }

  lemma Bits24Up(c: bv32)
    ensures Bits24(c << 1) == Bits24(c)[1..] + [false]
  {
    Up24(c);
    UpOctetBits(B2(c), At(B1(c), 0));
    UpOctetBits(B1(c), At(B0(c), 0));
    UpOctetBits(B0(c), false);
    var x2, x1, x0 := OctetBits(B2(c)), OctetBits(B1(c)), OctetBits(B0(c));
    var y2, y1, y0 := OctetBits(B2(c << 1)), OctetBits(B1(c << 1)), OctetBits(B0(c << 1));
    CarryAcross(x1, x0, y1, y0);
    CarryAcross(x2, x1 + x0, y2, y1 + y0);
  }

  lemma Bits24Step(c: bv32, poly: bv32)
    ensures Bits24(if c & 0x80_0000 != 0 then (c << 1) ^ poly else c << 1) ==
      Shift(Bits24(poly), Bits24(c))
  {
    Top24(c);
    Bits24Up(c);
    Bits24Xor(c << 1, poly);
  }

  lemma Bits24Next(c: bv32)
    ensures Bits24(c << 8) == Bits24(c)[8..] + Zeros(8)
  {
    Next24(c);
    ZeroOctet();
  }

  lemma Bits24Top(c: bv32)
    ensures Bits24(c)[..8] == OctetBits(B2(c))
  {}

  lemma Bits24Low(c: bv32)
    ensures Bits24(c & 0xFF_FFFF) == Bits24(c)
  {
    Low24(c);
  }

  lemma Bits24Injective(c: bv32, d: bv32)
    requires Bits24(c) == Bits24(d)
    ensures c & 0xFF_FFFF == d & 0xFF_FFFF
  {
    assert OctetBits(B2(c)) == Bits24(c)[..8] && OctetBits(B2(d)) == Bits24(d)[..8];
    assert OctetBits(B1(c)) == Bits24(c)[8..16] && OctetBits(B1(d)) == Bits24(d)[8..16];
    assert OctetBits(B0(c)) == Bits24(c)[16..] && OctetBits(B0(d)) == Bits24(d)[16..];
    OctetBitsInjective(B2(c), B2(d));
    OctetBitsInjective(B1(c), B1(d));
    OctetBitsInjective(B0(c), B0(d));
  }

  // ---- Thirty-two bits, reflected: the low bit is the highest power ----

  function Rev(x: bv8): bv8 {
    ((x & 0x01) << 7) | ((x & 0x02) << 5) | ((x & 0x04) << 3) | ((x & 0x08) << 1) |
    ((x & 0x10) >> 1) | ((x & 0x20) >> 3) | ((x & 0x40) >> 5) | ((x & 0x80) >> 7)
  }

  // A byte taken low bit first.
  function RevBits(x: bv8): (r: Bits)
    ensures |r| == 8
  {
    OctetBits(Rev(x))
  }

  function ReflectedBits(c: bv32): (r: Bits)
    ensures |r| == 32
  {
    Quad(RevBits(B0(c)), RevBits(B1(c)), RevBits(B2(c)), RevBits(B3(c)))
  }

  lemma RevXor(x: bv8, y: bv8)
    ensures Rev(x ^ y) == Rev(x) ^ Rev(y)
  {}

  lemma RevInjective(x: bv8, y: bv8)
    requires Rev(x) == Rev(y)
    ensures x == y
  {}

  lemma RevZero()
    ensures Rev(0) == 0
  {}

  lemma ReflectedUp(c: bv32)
    ensures Rev(B0(c >> 1)) == Up(Rev(B0(c)), At(Rev(B1(c)), 0))
    ensures Rev(B1(c >> 1)) == Up(Rev(B1(c)), At(Rev(B2(c)), 0))
    ensures Rev(B2(c >> 1)) == Up(Rev(B2(c)), At(Rev(B3(c)), 0))
    ensures Rev(B3(c >> 1)) == Up(Rev(B3(c)), false)
  {}

  lemma ReflectedTop(c: bv32)
    ensures At(Rev(B0(c)), 0) == (c & 1 != 0)
  {}

  lemma ReflectedNext(c: bv32)
    ensures B0(c >> 8) == B1(c) && B1(c >> 8) == B2(c) && B2(c >> 8) == B3(c) && B3(c >> 8) == 0
  {}

  lemma RevBitsXor(x: bv8, y: bv8)
    ensures RevBits(x ^ y) == Xor(RevBits(x), RevBits(y))
  {
    RevXor(x, y);
    XorOctetBits(Rev(x), Rev(y));
  }

  lemma RevBits0Xor(c: bv32, d: bv32)
    ensures RevBits(B0(c ^ d)) == Xor(RevBits(B0(c)), RevBits(B0(d)))
  {
    B0Xor(c, d);
    RevBitsXor(B0(c), B0(d));
  }

  lemma RevBits1Xor(c: bv32, d: bv32)
    ensures RevBits(B1(c ^ d)) == Xor(RevBits(B1(c)), RevBits(B1(d)))
  {
    B1Xor(c, d);
    RevBitsXor(B1(c), B1(d));
  }

  lemma RevBits2Xor(c: bv32, d: bv32)
    ensures RevBits(B2(c ^ d)) == Xor(RevBits(B2(c)), RevBits(B2(d)))
  {
    B2Xor(c, d);
    RevBitsXor(B2(c), B2(d));
  }

  lemma RevBits3Xor(c: bv32, d: bv32)
    ensures RevBits(B3(c ^ d)) == Xor(RevBits(B3(c)), RevBits(B3(d)))
  {
    B3Xor(c, d);
    RevBitsXor(B3(c), B3(d));
  }

  lemma ReflectedXor(c: bv32, d: bv32)
    ensures ReflectedBits(c ^ d) == Xor(ReflectedBits(c), ReflectedBits(d))
  {
    RevBits0Xor(c, d);
    RevBits1Xor(c, d);
    RevBits2Xor(c, d);
    RevBits3Xor(c, d);
    XorQuad(RevBits(B0(c)), RevBits(B1(c)), RevBits(B2(c)), RevBits(B3(c)),
            RevBits(B0(d)), RevBits(B1(d)), RevBits(B2(d)), RevBits(B3(d)));
  }

  lemma RevBitsUp(x: bv8, y: bv8, carry: bool)
    requires Rev(y) == Up(Rev(x), carry)
    ensures RevBits(y) == RevBits(x)[1..] + [carry]
  {
    UpOctetBits(Rev(x), carry);
  }

  lemma ReflectedBitsUp(c: bv32)
    ensures ReflectedBits(c >> 1) == ReflectedBits(c)[1..] + [false]
  {
    var d := c >> 1;
    ReflectedUp(c);
    RevBitsUp(B0(c), B0(d), At(Rev(B1(c)), 0));
    RevBitsUp(B1(c), B1(d), At(Rev(B2(c)), 0));
    RevBitsUp(B2(c), B2(d), At(Rev(B3(c)), 0));
    RevBitsUp(B3(c), B3(d), false);
    CarryQuad(RevBits(B0(c)), RevBits(B1(c)), RevBits(B2(c)), RevBits(B3(c)),
              RevBits(B0(d)), RevBits(B1(d)), RevBits(B2(d)), RevBits(B3(d)));
  }

  lemma ReflectedStep(c: bv32, poly: bv32)
    ensures ReflectedBits(if c & 1 != 0 then (c >> 1) ^ poly else c >> 1) ==
      Shift(ReflectedBits(poly), ReflectedBits(c))
  {
    ReflectedTop(c);
    ReflectedBitsUp(c);
    ReflectedXor(c >> 1, poly);
  }

  lemma ReflectedBitsNext(c: bv32)
    ensures ReflectedBits(c >> 8) == ReflectedBits(c)[8..] + Zeros(8)
  {
    ReflectedNext(c);
    RevZero();
    ZeroOctet();
  }

  lemma ReflectedBitsTop(c: bv32)
    ensures ReflectedBits(c)[..8] == OctetBits(Rev(B0(c)))
  {}

  lemma ReflectedInjective(c: bv32, d: bv32)
    requires ReflectedBits(c) == ReflectedBits(d)
    ensures c == d
  {
    QuadInjective(RevBits(B0(c)), RevBits(B1(c)), RevBits(B2(c)), RevBits(B3(c)),
                  RevBits(B0(d)), RevBits(B1(d)), RevBits(B2(d)), RevBits(B3(d)));
    SameByte(B0(c), B0(d));
    SameByte(B1(c), B1(d));
    SameByte(B2(c), B2(d));
    SameByte(B3(c), B3(d));
  }

  lemma SameByte(x: bv8, y: bv8)
    requires RevBits(x) == RevBits(y)
    ensures x == y
  {
    OctetBitsInjective(Rev(x), Rev(y));
    RevInjective(x, y);
  }
}
