// Bytes and byte strings seen as bit strings, highest bit first.
module Octets {
  import opened Gf2

  function Mask(i: nat): (m: bv8)
    requires i < 8
    ensures m & (m - 1) == 0
  {
    match i
    case 0 => 0x80
    case 1 => 0x40
    case 2 => 0x20
    case 3 => 0x10
    case 4 => 0x08
    case 5 => 0x04
    case 6 => 0x02
    case _ => 0x01
  }

  // Bit i of a byte, the highest bit first.
  predicate At(x: bv8, i: nat)
    requires i < 8
  {
    x & Mask(i) != 0
  }

  function OctetBits(x: bv8): (r: Bits)
    ensures |r| == 8
    ensures forall i :: 0 <= i < 8 ==> r[i] == At(x, i)
  {
    seq(8, i requires 0 <= i < 8 => At(x, i))
  }

  // Shift up one place, taking the carry in at the bottom.
  function Up(x: bv8, carry: bool): bv8 {
    if carry then (x << 1) | 1 else x << 1
  }

  lemma MaskXor(x: bv8, y: bv8, m: bv8)
    requires m & (m - 1) == 0
    ensures ((x ^ y) & m != 0) == ((x & m != 0) != (y & m != 0))
  {}

  lemma AtXor(x: bv8, y: bv8, i: nat)
    requires i < 8
    ensures At(x ^ y, i) == (At(x, i) != At(y, i))
  {
    MaskXor(x, y, Mask(i));
  }

  lemma MaskUp(x: bv8, m: bv8)
    requires m < 0x80
    ensures ((x << 1) & (m << 1) != 0) == (x & m != 0)
    ensures (((x << 1) | 1) & (m << 1) != 0) == (x & m != 0)
    ensures (x << 1) & 1 == 0 && ((x << 1) | 1) & 1 == 1
  {}

  lemma NextMask(i: nat)
    requires i < 7
    ensures Mask(i) == Mask(i + 1) << 1 && Mask(i + 1) < 0x80
  {}

  lemma AtUp(x: bv8, carry: bool, i: nat)
    requires i < 8
    ensures At(Up(x, carry), i) == if i < 7 then At(x, i + 1) else carry
  {
    if i < 7 {
      NextMask(i);
      MaskUp(x, Mask(i + 1));
    } else {
      MaskUp(x, 1);
    }
  }

  lemma XorOctetBits(x: bv8, y: bv8)
    ensures OctetBits(x ^ y) == Xor(OctetBits(x), OctetBits(y))
  {
    forall i | 0 <= i < 8
      ensures OctetBits(x ^ y)[i] == (OctetBits(x)[i] != OctetBits(y)[i])
    {
      AtXor(x, y, i);
    }
  }

  lemma UpOctetBits(x: bv8, carry: bool)
    ensures OctetBits(Up(x, carry)) == OctetBits(x)[1..] + [carry]
  {
    forall i | 0 <= i < 8
      ensures OctetBits(Up(x, carry))[i] == (OctetBits(x)[1..] + [carry])[i]
    {
      AtUp(x, carry, i);
    }
  }

  lemma OctetMasks(x: bv8)
    ensures At(x, 0) == (x & 0x80 != 0) && At(x, 1) == (x & 0x40 != 0)
    ensures At(x, 2) == (x & 0x20 != 0) && At(x, 3) == (x & 0x10 != 0)
    ensures At(x, 4) == (x & 0x08 != 0) && At(x, 5) == (x & 0x04 != 0)
    ensures At(x, 6) == (x & 0x02 != 0) && At(x, 7) == (x & 0x01 != 0)
  {}

  lemma OctetBitsInjective(x: bv8, y: bv8)
    requires OctetBits(x) == OctetBits(y)
    ensures x == y
  {
    assert forall i :: 0 <= i < 8 ==> OctetBits(x)[i] == OctetBits(y)[i];
    OctetMasks(x);
    OctetMasks(y);
  }

  lemma ZeroOctet()
    ensures OctetBits(0) == Zeros(8)
  {}

  function MsgBits(msg: seq<bv8>): (s: Bits)
    ensures |s| == 8 * |msg|
  {
    if msg == [] then [] else OctetBits(msg[0]) + MsgBits(msg[1..])
  }

  lemma {:induction false} MsgBitsInjective(m: seq<bv8>, n: seq<bv8>)
    requires |m| == |n| && MsgBits(m) == MsgBits(n)
    ensures m == n
  {
    if m != [] {
      assert OctetBits(m[0]) == MsgBits(m)[..8] && OctetBits(n[0]) == MsgBits(n)[..8];
      assert MsgBits(m[1..]) == MsgBits(m)[8..] && MsgBits(n[1..]) == MsgBits(n)[8..];
      MsgBitsInjective(m[1..], n[1..]);
      OctetBitsInjective(m[0], n[0]);
    }
  }

  // Division of a byte string, one byte at a time.
  lemma DivideByte(g: Bits, msg: seq<bv8>, r: Bits)
    requires |g| == |r| > 0 && msg != []
    ensures Divide(g, MsgBits(msg), r) == Divide(g, MsgBits(msg[1..]), Divide(g, OctetBits(msg[0]), r))
  {
    DivideConcat(g, OctetBits(msg[0]), MsgBits(msg[1..]), r);
  }

  // No change of a single message byte goes unseen.
  lemma {:induction false} ByteSeen(g: Bits, msg: seq<bv8>, k: nat, v: bv8, r: Bits)
    requires |g| == |r| >= 8 && g[|g| - 1] && k < |msg|
    requires Divide(g, MsgBits(msg[k := v]), r) == Divide(g, MsgBits(msg), r)
    ensures v == msg[k]
    decreases k
  {
    var other := msg[k := v];
    DivideByte(g, msg, r);
    DivideByte(g, other, r);
    if k == 0 {
      assert other[1..] == msg[1..];
      DivideInjective(g, MsgBits(msg[1..]), Divide(g, OctetBits(v), r), Divide(g, OctetBits(msg[0]), r));
      DivideBurst(g, OctetBits(v), OctetBits(msg[0]), r);
      OctetBitsInjective(v, msg[0]);
    } else {
      assert other[1..] == msg[1..][k - 1 := v];
      ByteSeen(g, msg[1..], k - 1, v, Divide(g, OctetBits(msg[0]), r));
    }
  }

  // Strings no longer than the register leave different remainders.
  lemma ShortSeen(g: Bits, m: seq<bv8>, n: seq<bv8>, r: Bits)
    requires |g| == |r| > 0 && g[|g| - 1] && |m| == |n| && 8 * |m| <= |g|
    requires Divide(g, MsgBits(m), r) == Divide(g, MsgBits(n), r)
    ensures m == n
  {
    DivideBurst(g, MsgBits(m), MsgBits(n), r);
    MsgBitsInjective(m, n);
  }

  lemma {:induction false} MsgBitsConcat(a: seq<bv8>, b: seq<bv8>)
    ensures MsgBits(a + b) == MsgBits(a) + MsgBits(b)
    decreases |a|
  {
    if a == [] {
      assert a + b == b;
    } else {
      assert (a + b)[1..] == a[1..] + b;
      MsgBitsConcat(a[1..], b);
    }
  }

  lemma MsgBitsSplit(x: seq<bv8>, k: nat)
    requires k <= |x|
    ensures MsgBits(x) == MsgBits(x[..k]) + MsgBits(x[k..])
  {
    hide MsgBits;
    assert x[..k] + x[k..] == x;
    MsgBitsConcat(x[..k], x[k..]);
  }

  lemma MsgBitsParts(x: seq<bv8>, i: nat, j: nat)
    requires i <= j <= |x|
    ensures MsgBits(x) == (MsgBits(x[..i]) + MsgBits(x[i..j])) + MsgBits(x[j..])
  {
    hide MsgBits;
    MsgBitsSplit(x, j);
    MsgBitsSplit(x[..j], i);
    assert x[..j][..i] == x[..i] && x[..j][i..] == x[i..j];
  }

  // Messages of one length that differ in bytes i to j only.
  predicate SameOutside(x: seq<bv8>, y: seq<bv8>, i: nat, j: nat) {
    |x| == |y| && i <= j <= |x| && x[..i] == y[..i] && x[j..] == y[j..]
  }

  // Nor is a change within a window no longer than the register.
  lemma WindowSeen(g: Bits, x: seq<bv8>, y: seq<bv8>, i: nat, j: nat, r: Bits)
    requires |g| == |r| > 0 && g[|g| - 1] && SameOutside(x, y, i, j) && 8 * (j - i) <= |g|
    requires Divide(g, MsgBits(x), r) == Divide(g, MsgBits(y), r)
    ensures x[i..j] == y[i..j]
  {
    hide Divide, MsgBits;
    var a, z := MsgBits(x[..i]), MsgBits(x[j..]);
    MsgBitsParts(x, i, j);
    MsgBitsParts(y, i, j);
    DivideWindow(g, a, MsgBits(x[i..j]), MsgBits(y[i..j]), z, r);
    MsgBitsInjective(x[i..j], y[i..j]);
  }

  lemma SameAll(x: seq<bv8>, y: seq<bv8>, i: nat, j: nat)
    requires SameOutside(x, y, i, j) && x[i..j] == y[i..j]
    ensures x == y
  {
    assert x == x[..i] + x[i..j] + x[j..];
    assert y == y[..i] + y[i..j] + y[j..];
  }
}
