// The bytes of a tag and the ways they are changed: in bulk, and one bit at a
// time through the 32-bit word that holds it.
module TagMemory {
  import opened Words
  import opened Octets

  // Clipped to what is left of the buffer; nothing at all behind its end.
  function Clip(mem: seq<bv8>, source: seq<bv8>, off: int): nat {
    if off < 0 || off > |mem| then 0
    else if |source| > |mem| - off then |mem| - off
    else |source|
  }

  function Overlay(mem: seq<bv8>, source: seq<bv8>, off: int): (r: seq<bv8>)
    ensures |r| == |mem|
  {
    var len := Clip(mem, source, off);
    if len == 0 then mem else mem[..off] + source[..len] + mem[off + len..]
  }

  // A byte is overwritten exactly if the source has one for it, and the buffer a
  // place where the source begins.
  lemma OverlayExact(mem: seq<bv8>, source: seq<bv8>, off: int, i: nat)
    requires i < |mem|
    ensures Overlay(mem, source, off)[i] == if 0 <= off <= i < off + |source| then source[i - off] else mem[i]
  {}

  // ---- Bits, the lowest first ----

  function OneBit(k: nat): bv8
    requires k < 8
  {
    Mask(7 - k)
  }

  predicate BitOf(b: bv8, k: nat)
    requires k < 8
  {
    At(b, 7 - k)
  }

  // A byte after the bits of a mask are set or cleared.
  function ByteWith(x: bv8, mask: bv8, value: bool): bv8 { if value then x | mask else x & !mask }

  function WithBit(b: bv8, k: nat, value: bool): bv8
    requires k < 8
  {
    ByteWith(b, OneBit(k), value)
  }

  function Mask32(n: nat): bv32
    requires n < 32
  {
    1 << n
  }

  function WordWith(w: bv32, mask: bv32, value: bool): bv32 { if value then w | mask else w & !mask }

  // The whole word is read and written back; only at the end of a buffer that
  // is not a multiple of four is it the byte alone.
  function SetBit(mem: seq<bv8>, off: int, bit: int, value: bool): (r: seq<bv8>)
    ensures |r| == |mem|
  {
    if bit < 0 || bit > 7 || off < 0 || off >= |mem| then mem
    else
      var base := off / 4 * 4;
      if base + 4 <= |mem| then
        var w := WordWith(Read32(mem[base..base + 4]), Mask32(8 * (off - base) + bit), value);
        mem[..base] + Le32(w) + mem[base + 4..]
      else mem[off := WithBit(mem[off], bit, value)]
  }

  // ---- What one bit of a word is ----

  lemma Mask32Low(k: nat)
    requires k < 8
    ensures B0(Mask32(k)) == OneBit(k) && B1(Mask32(k)) == 0 && B2(Mask32(k)) == 0 && B3(Mask32(k)) == 0
  {
    match k case 0 => case 1 => case 2 => case 3 => case 4 => case 5 => case 6 => case 7 =>
  }

  lemma Mask32Second(k: nat)
    requires k < 8
    ensures B0(Mask32(8 + k)) == 0 && B1(Mask32(8 + k)) == OneBit(k) && B2(Mask32(8 + k)) == 0 && B3(Mask32(8 + k)) == 0
  {
    match k case 0 => case 1 => case 2 => case 3 => case 4 => case 5 => case 6 => case 7 =>
  }

  lemma Mask32Third(k: nat)
    requires k < 8
    ensures B0(Mask32(16 + k)) == 0 && B1(Mask32(16 + k)) == 0 && B2(Mask32(16 + k)) == OneBit(k) &&
      B3(Mask32(16 + k)) == 0
  {
    match k case 0 => case 1 => case 2 => case 3 => case 4 => case 5 => case 6 => case 7 =>
  }

  lemma Mask32High(k: nat)
    requires k < 8
    ensures B0(Mask32(24 + k)) == 0 && B1(Mask32(24 + k)) == 0 && B2(Mask32(24 + k)) == 0 &&
      B3(Mask32(24 + k)) == OneBit(k)
  {
    match k case 0 => case 1 => case 2 => case 3 => case 4 => case 5 => case 6 => case 7 =>
  }

  lemma B0With(w: bv32, m: bv32, value: bool)
    ensures B0(WordWith(w, m, value)) == ByteWith(B0(w), B0(m), value)
  {}

  lemma B1With(w: bv32, m: bv32, value: bool)
    ensures B1(WordWith(w, m, value)) == ByteWith(B1(w), B1(m), value)
  {}

  lemma B2With(w: bv32, m: bv32, value: bool)
    ensures B2(WordWith(w, m, value)) == ByteWith(B2(w), B2(m), value)
  {}

  lemma B3With(w: bv32, m: bv32, value: bool)
    ensures B3(WordWith(w, m, value)) == ByteWith(B3(w), B3(m), value)
  {}

  lemma ZeroMask(x: bv8, value: bool)
    ensures ByteWith(x, 0, value) == x
  {}

  lemma WordBytes(b: seq<bv8>, m: bv32, value: bool)
    requires |b| == 4
    ensures Le32(WordWith(Read32(b), m, value)) ==
      [ByteWith(b[0], B0(m), value), ByteWith(b[1], B1(m), value), ByteWith(b[2], B2(m), value),
        ByteWith(b[3], B3(m), value)]
  {
    hide Word32, B0, B1, B2, B3, WordWith, ByteWith;
    var w := Read32(b);
    B0With(w, m, value);
    B1With(w, m, value);
    B2With(w, m, value);
    B3With(w, m, value);
    BytesOfWord32(b[0], b[1], b[2], b[3]);
  }

  lemma WithBitIs(b: bv8, k: nat, value: bool)
    requires k < 8
    ensures WithBit(b, k, value) == ByteWith(b, OneBit(k), value)
  {}

  // Of the four bytes, only the one that holds the bit changes.
  lemma WordBit(b: seq<bv8>, j: nat, k: nat, value: bool)
    requires |b| == 4 && j < 4 && k < 8
    ensures Le32(WordWith(Read32(b), Mask32(8 * j + k), value)) == b[j := WithBit(b[j], k, value)]
  {
    hide *;
    WordBytes(b, Mask32(8 * j + k), value);
    ZeroMask(b[0], value);
    ZeroMask(b[1], value);
    ZeroMask(b[2], value);
    ZeroMask(b[3], value);
    WithBitIs(b[j], k, value);
    if j == 0 { Mask32Low(k); }
    else if j == 1 { Mask32Second(k); }
    else if j == 2 { Mask32Third(k); }
    else { Mask32High(k); }
  }

  // The word-wide update is the update of one byte, wherever the byte stands.
  lemma SetBitIsByteWide(mem: seq<bv8>, off: nat, k: nat, value: bool)
    requires off < |mem| && k < 8
    ensures SetBit(mem, off, k, value) == mem[off := WithBit(mem[off], k, value)]
  {
    hide WordWith, Read32, Mask32, WithBit, Le32;
    var base := off / 4 * 4;
    if base + 4 <= |mem| {
      var b := mem[base..base + 4];
      WordBit(b, off - base, k, value);
      assert b[off - base] == mem[off];
      assert mem[..base] + b[off - base := WithBit(mem[off], k, value)] + mem[base + 4..] ==
        mem[off := WithBit(mem[off], k, value)];
    }
  }

  lemma MaskWith(b: bv8, m: bv8, value: bool)
    requires m != 0 && m & (m - 1) == 0
    ensures (ByteWith(b, m, value) & m != 0) == value
  {}

  lemma OtherMaskWith(b: bv8, m: bv8, n: bv8, value: bool)
    requires m & n == 0
    ensures ByteWith(b, m, value) & n == b & n
  {}

  lemma OneBitsApart(k: nat, j: nat)
    requires k < 8 && j < 8
    ensures OneBit(k) != 0 && (k != j ==> OneBit(k) & OneBit(j) == 0)
  {}

  lemma BitWith(b: bv8, k: nat, value: bool)
    requires k < 8
    ensures BitOf(WithBit(b, k, value), k) == value
  {
    hide Mask, ByteWith;
    OneBitsApart(k, k);
    MaskWith(b, OneBit(k), value);
  }

  lemma OtherBitWith(b: bv8, k: nat, value: bool, j: nat)
    requires k < 8 && j < 8 && j != k
    ensures BitOf(WithBit(b, k, value), j) == BitOf(b, j)
  {
    hide Mask, ByteWith;
    OneBitsApart(k, j);
    OtherMaskWith(b, OneBit(k), OneBit(j), value);
  }

  // ---- The buffer as an object ----

  class Buffer {
    const data: array<bv8>

    constructor (size: nat)
      ensures fresh(data) && data.Length == size
    {
      data := new bv8[size];
    }

    method SetData(source: seq<bv8>, off: int)
      modifies data
      ensures data[..] == Overlay(old(data[..]), source, off)
    {
      if off < 0 { return; }
      var len := |source|;
      var max := data.Length - off;
      if max < 0 { return; }
      if len > max { len := max; }
      for i := 0 to len
        invariant forall j :: 0 <= j < i ==> data[off + j] == source[j]
        invariant forall j :: 0 <= j < data.Length && !(off <= j < off + i) ==> data[j] == old(data[j])
      {
        data[off + i] := source[i];
      }
    }

    method StoreWord(at: nat, bytes: seq<bv8>)
      requires |bytes| == 4 && at + 4 <= data.Length
      modifies data
      ensures data[..] == old(data[..at]) + bytes + old(data[at + 4..])
    {
      data[at], data[at + 1], data[at + 2], data[at + 3] := bytes[0], bytes[1], bytes[2], bytes[3];
    }

    method AtomicSetBit(off: int, bit: int, value: bool)
      modifies data
      ensures data[..] == SetBit(old(data[..]), off, bit, value)
    {
      hide Read32, WordWith, Mask32, WithBit, B0, B1, B2, B3;
      if bit < 0 || bit > 7 { return; }
      if off < 0 || off >= data.Length { return; }
      var base := off / 4 * 4;
      var bitInWord := 8 * (off - base) + bit;
      if base + 4 <= data.Length {
        var mask := Mask32(bitInWord);
        var word := Read32(data[base..base + 4]);
        word := WordWith(word, mask, value);
        StoreWord(base, Le32(word));
      } else {
        data[off] := WithBit(data[off], bit, value);
      }
    }

    method GetData(off: int, length: int) returns (r: seq<bv8>)
      ensures r == if off < 0 || length < 0 || off + length > data.Length then [] else data[off..off + length]
    {
      if off < 0 || length < 0 { return []; }
      if off + length > data.Length { return []; }
      return data[off..off + length];
    }
  }
}
