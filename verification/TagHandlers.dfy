// The walker-aware service handlers over a tag's own buffer: reads take from it,
// writes change it in place.
module TagHandlers {
  import opened Options
  import opened Walker
  import opened TagMemory
  import opened TagServices
  import opened Fragments

  method BuildReadResponse(tag: Buffer, off: nat, length: nat, partial: bool, w: Spot) returns (r: Reply)
    requires off + length <= tag.data.Length
    ensures var data := Prefix(w) + tag.data[off..off + length]; r == if partial then More(data) else Done(data)
  {
    hide Out16;
    var out := if w.tpl.Some? then Marker() + Out16(w.tpl.value.handle) else Out16(w.typ);
    var src := tag.GetData(off, length);
    out := out + src;
    r := if partial then More(out) else Done(out);
  }

  method ReadBit(tag: Buffer, w: Spot) returns (r: Reply)
    requires w.bit.Some? && BitHere(tag.data[..], w)
    ensures r == BitReply(tag.data[..], w)
  {
    hide Out16, BitOf;
    var host := tag.GetData(w.offset, 1);
    assert host[0] == tag.data[w.offset];
    r := Done(Out16(0x00C1) + [if BitOf(host[0], w.bit.value) then 1 else 0]);
  }

  method HandleReadTagAt(tag: Buffer, data: seq<bv8>, w: Spot) returns (r: Reply)
    requires BitHere(tag.data[..], w)
    ensures r == ReadAt(tag.data[..], data, w)
  {
    hide U16, BitReply;
    if |data| < 2 { return Fail(0x13, None); }
    var count := U16(data, 0);
    if w.bit.Some? {
      if count != 1 { return Fail(0xFF, Some(0x2105)); }
      r := ReadBit(tag, w);
      return;
    }
    var bytesToRead := count * w.size;
    if w.offset + bytesToRead > tag.data.Length { return Fail(0xFF, Some(0x2105)); }
    var prefixLen := if w.tpl.Some? then 4 else 2;
    var partial := prefixLen + bytesToRead > MAX_REPLY_DATA;
    var take := if partial then MAX_REPLY_DATA - prefixLen else bytesToRead;
    ghost var bytes := tag.data[w.offset..w.offset + bytesToRead];
    assert bytes[..take] == tag.data[w.offset..w.offset + take];
    r := BuildReadResponse(tag, w.offset, take, partial, w);
  }

  method HandleWriteTagAt(tag: Buffer, data: seq<bv8>, w: Spot) returns (r: Reply)
    modifies tag.data
    ensures (r, tag.data[..]) == WriteAt(old(tag.data[..]), data, w)
  {
    hide U16, Overlay, SetBit, Odd;
    if |data| < 4 { return Fail(0x13, None); }
    var tagType := U16(data, 0);
    var count, headerLen;
    if w.tpl.Some? {
      if |data| < 6 { return Fail(0x13, None); }
      var handle := U16(data, 2);
      count, headerLen := U16(data, 4), 6;
      if tagType != STRUCT_INDICATOR || handle != w.tpl.value.handle { return Fail(0xFF, Some(0x2107)); }
    } else {
      count, headerLen := U16(data, 2), 4;
      if tagType != w.typ { return Fail(0xFF, Some(0x2107)); }
    }
    if w.bit.Some? {
      if count != 1 || |data| < headerLen + 1 { return Fail(0x13, None); }
      tag.AtomicSetBit(w.offset, w.bit.value, Odd(data[headerLen]));
      return Done([]);
    }
    var n := count * w.size;
    if |data| < headerLen + n { return Fail(0x13, None); }
    if w.offset + n > tag.data.Length { return Fail(0xFF, Some(0x2105)); }
    tag.SetData(data[headerLen..headerLen + n], w.offset);
    return Done([]);
  }

  method HandleReadTagFragmentedAt(tag: Buffer, data: seq<bv8>, w: Spot) returns (r: Reply)
    requires BitHere(tag.data[..], w)
    ensures r == ReadFragmentAt(tag.data[..], data, w)
  {
    hide U16, U32, BitReply, Out16;
    if |data| < 6 { return Fail(0x13, None); }
    var count, off := U16(data, 0), U32(data, 2);
    if w.bit.Some? {
      if count != 1 || off != 0 { return Fail(0xFF, Some(0x2105)); }
      r := ReadBit(tag, w);
      return;
    }
    var total := count * w.size;
    if off >= total { return Fail(0xFF, Some(0x2105)); }
    var at := w.offset + off;
    if at >= tag.data.Length { return Fail(0xFF, Some(0x2105)); }
    var prefixLen := if w.tpl.Some? then 4 else 2;
    var remaining := Least(total - off, tag.data.Length - at);
    var chunk := Least(remaining, MAX_REPLY_DATA - prefixLen);
    r := BuildReadResponse(tag, at, chunk, off + chunk < total, w);
  }

  method HandleWriteTagFragmentedAt(tag: Buffer, data: seq<bv8>, w: Spot) returns (r: Reply)
    modifies tag.data
    ensures (r, tag.data[..]) == WriteFragmentAt(old(tag.data[..]), data, w)
  {
    hide U16, U32, Overlay, SetBit, Odd;
    if |data| < 8 { return Fail(0x13, None); }
    var tagType := U16(data, 0);
    var count, off, headerLen;
    if w.tpl.Some? {
      if |data| < 10 { return Fail(0x13, None); }
      var handle := U16(data, 2);
      count, off, headerLen := U16(data, 4), U32(data, 6), 10;
      if tagType != STRUCT_INDICATOR || handle != w.tpl.value.handle { return Fail(0xFF, Some(0x2107)); }
    } else {
      count, off, headerLen := U16(data, 2), U32(data, 4), 8;
      if tagType != w.typ { return Fail(0xFF, Some(0x2107)); }
    }
    if w.bit.Some? {
      if count != 1 || off != 0 || |data| < headerLen + 1 { return Fail(0x13, None); }
      tag.AtomicSetBit(w.offset, w.bit.value, Odd(data[headerLen]));
      return Done([]);
    }
    var total, n := count * w.size, |data| - headerLen;
    if off + n > total { return Fail(0xFF, Some(0x2104)); }
    if w.offset + off + n > tag.data.Length { return Fail(0xFF, Some(0x2105)); }
    assert data[headerLen..headerLen + n] == data[headerLen..];
    tag.SetData(data[headerLen..headerLen + n], w.offset + off);
    return Done([]);
  }
}
