// The loops that compute the safety CRCs, the loops that generate two of the
// tables, and the seeds made of connection identities and rollover counts.
module SafetyCrc {
  import opened Words
  import opened Crc
  import S1Table
  import S2Table
  import S3Table

  // ---- The loops ----

  lemma S1Next(data: seq<bv8>, i: nat, c: bv8)
    requires i < |data|
    ensures S1(data[i..], c) == S1(data[i + 1..], S1Table.Entry(c ^ data[i]))
  {
    hide S1Table.Entry;
    assert data[i..][1..] == data[i + 1..];
  }

  method ComputeS1(data: seq<bv8>, preset: bv8) returns (crc: bv8)
    ensures crc == S1(data, preset)
  {
    hide S1, S1Table.Entry;
    crc := preset;
    assert data[0..] == data;
    for i := 0 to |data|
      invariant S1(data[i..], crc) == S1(data, preset)
    {
      S1Next(data, i, crc);
      crc := S1Table.Entry(crc ^ data[i]);
    }
    S1Done(data, crc);
  }

  lemma S1Done(data: seq<bv8>, c: bv8)
    ensures S1(data[|data|..], c) == c
  {}

  lemma S2Next(data: seq<bv8>, i: nat, c: bv8)
    requires i < |data|
    ensures S2(data[i..], c) == S2(data[i + 1..], S2Table.Entry(c ^ data[i]))
  {
    hide S2Table.Entry;
    assert data[i..][1..] == data[i + 1..];
  }

  method ComputeS2(data: seq<bv8>, preset: bv8) returns (crc: bv8)
    ensures crc == S2(data, preset)
  {
    hide S2, S2Table.Entry;
    crc := preset;
    assert data[0..] == data;
    for i := 0 to |data|
      invariant S2(data[i..], crc) == S2(data, preset)
    {
      S2Next(data, i, crc);
      crc := S2Table.Entry(crc ^ data[i]);
    }
    S2Done(data, crc);
  }

  lemma S2Done(data: seq<bv8>, c: bv8)
    ensures S2(data[|data|..], c) == c
  {}

  lemma S3Next(data: seq<bv8>, i: nat, c: bv16)
    requires i < |data|
    ensures S3(data[i..], c) == S3(data[i + 1..], S3Byte(data[i], c))
  {
    hide S3Byte;
    assert data[i..][1..] == data[i + 1..];
  }

  method ComputeS3(data: seq<bv8>, preset: bv16) returns (crc: bv16)
    ensures crc == S3(data, preset)
  {
    hide S3, S3Byte;
    crc := preset;
    assert data[0..] == data;
    for i := 0 to |data|
      invariant S3(data[i..], crc) == S3(data, preset)
    {
      S3Next(data, i, crc);
      S3Single(data[i], crc);
      crc := ComputeS3Byte(data[i], crc);
    }
    S3Done(data, crc);
  }

  lemma S3Done(data: seq<bv8>, c: bv16)
    ensures S3(data[|data|..], c) == c
  {}

  lemma S3Single(b: bv8, c: bv16)
    ensures S3([b], c) == S3Byte(b, c)
  {
    hide S3Byte;
    assert [b][1..] == [];
  }

  // A single table step is the code of a message of one byte.
  method ComputeS3Byte(data: bv8, preset: bv16) returns (crc: bv16)
    ensures crc == S3([data], preset)
  {
    hide S3Table.Entry, Hi, S3;
    S3Single(data, preset);
    crc := S3Table.Entry(Hi(preset) ^ data) ^ (preset << 8);
  }

  method ComputeS3U16(data: bv16, preset: bv16) returns (crc: bv16)
    ensures crc == S3(Le16(data), preset)
  {
    hide S3, S3Byte, Hi, Lo;
    crc := ComputeS3Byte(Lo(data), preset);
    S3Single(Lo(data), preset);
    S3Single(Hi(data), crc);
    S3Pair(Lo(data), Hi(data), preset);
    crc := ComputeS3Byte(Hi(data), crc);
  }

  lemma S3Pair(a: bv8, b: bv8, c: bv16)
    ensures S3([a, b], c) == S3Byte(b, S3Byte(a, c))
  {
    hide S3Byte;
    var d := S3Byte(a, c);
    assert [a, b][1..] == [b] && [b][1..] == [];
    assert S3([b], d) == S3Byte(b, d);
  }

  // Slot k of the generated table belongs to the byte with value k.
  function S4At(k: nat): bv32
    requires k < 256
  {
    S4Entry(k as bv8)
  }

  lemma S4AtByte(x: bv8)
    ensures S4At(x as int) == S4Entry(x)
  {
    hide S4Entry;
  }

  method MakeS4Table() returns (t: array<bv32>)
    ensures fresh(t) && t.Length == 256 && forall k :: 0 <= k < 256 ==> t[k] == S4At(k)
  {
    hide S4Step, S4At;
    t := new bv32[256];
    for i := 0 to 256
      invariant forall k :: 0 <= k < i ==> t[k] == S4At(k)
    {
      var crc := (i as bv8) as bv32;
      S4AtSteps(i, 8);
      for j := 0 to 8
        invariant S4Steps(8 - j, crc) == S4At(i)
      {
        assert S4Steps(8 - j, crc) == S4Steps(8 - j - 1, S4Step(crc));
        crc := S4Step(crc);
      }
      t[i] := crc;
    }
  }

  lemma S4AtSteps(i: nat, n: nat)
    requires i < 256 && n == 8
    ensures S4At(i) == S4Steps(n, (i as bv8) as bv32)
  {}

  // Slot k of the generated table belongs to the byte with value k.
  function S5At(k: nat): bv32
    requires k < 256
  {
    S5Entry(k as bv8)
  }

  lemma S5AtByte(x: bv8)
    ensures S5At(x as int) == S5Entry(x)
  {
    hide S5Entry;
  }

  method MakeS5Table() returns (t: array<bv32>)
    ensures fresh(t) && t.Length == 256 && forall k :: 0 <= k < 256 ==> t[k] == S5At(k)
  {
    hide S5Step, S5At, Mask24;
    t := new bv32[256];
    for i := 0 to 256
      invariant forall k :: 0 <= k < i ==> t[k] == S5At(k)
    {
      var crc := ((i as bv8) as bv32) << 16;
      S5AtSteps(i, 8);
      for j := 0 to 8
        invariant Mask24(S5Steps(8 - j, crc)) == S5At(i)
      {
        assert S5Steps(8 - j, crc) == S5Steps(8 - j - 1, S5Step(crc));
        crc := S5Step(crc);
      }
      t[i] := Mask24(crc);
    }
  }

  lemma S5AtSteps(i: nat, n: nat)
    requires i < 256 && n == 8
    ensures S5At(i) == Mask24(S5Steps(n, ((i as bv8) as bv32) << 16))
  {}

  lemma S4Next(data: seq<bv8>, i: nat, c: bv32)
    requires i < |data|
    ensures S4(data[i..], c) == S4(data[i + 1..], S4Byte(data[i], c))
  {
    hide S4Byte;
    assert data[i..][1..] == data[i + 1..];
  }

  // Which slot of the table a byte leads to.
  function S4Slot(b: bv8, c: bv32): bv8 { ((c ^ (b as bv32)) & 0xFF) as bv8 }

  method TableStepS4(table: array<bv32>, b: bv8, c: bv32) returns (crc: bv32)
    requires table.Length == 256 && forall k :: 0 <= k < 256 ==> table[k] == S4At(k)
    ensures crc == S4Byte(b, c)
  {
    hide S4Slot, S4Entry, B0, S4At, S4Byte;
    var slot := S4Slot(b, c);
    var e := table[slot as int];
    S4Lookup(b, c);
    S4ByteFrom(e, b, c);
    crc := e ^ (c >> 8);
  }

  method ComputeS4(table: array<bv32>, data: seq<bv8>, preset: bv32) returns (crc: bv32)
    requires table.Length == 256 && forall k :: 0 <= k < 256 ==> table[k] == S4At(k)
    ensures crc == S4(data, preset)
  {
    hide S4, S4At, S4Byte;
    crc := preset;
    assert data[0..] == data;
    for i := 0 to |data|
      invariant S4(data[i..], crc) == S4(data, preset)
    {
      S4Next(data, i, crc);
      crc := TableStepS4(table, data[i], crc);
    }
    S4Done(data, crc);
  }

  lemma S4Done(data: seq<bv8>, c: bv32)
    ensures S4(data[|data|..], c) == c
  {}

  lemma S4ByteFrom(e: bv32, b: bv8, c: bv32)
    requires e == S4Entry(B0(c) ^ b)
    ensures e ^ (c >> 8) == S4Byte(b, c)
  {
    hide S4Entry, B0;
  }

  lemma S4Index(b: bv8, c: bv32)
    ensures S4Slot(b, c) == B0(c) ^ b
  {}

  lemma S4Lookup(b: bv8, c: bv32)
    ensures S4At(S4Slot(b, c) as int) == S4Entry(B0(c) ^ b)
  {
    hide S4Slot, S4Entry, B0, S4At;
    S4Index(b, c);
    S4AtByte(B0(c) ^ b);
  }

  lemma S5Next(data: seq<bv8>, i: nat, c: bv32)
    requires i < |data|
    ensures S5(data[i..], c) == S5(data[i + 1..], S5Byte(data[i], c))
  {
    hide S5Byte;
    assert data[i..][1..] == data[i + 1..];
  }

  // Which slot of the table a byte leads to.
  function S5Slot(b: bv8, c: bv32): bv8 { (((c >> 16) ^ (b as bv32)) & 0xFF) as bv8 }

  method TableStepS5(table: array<bv32>, b: bv8, c: bv32) returns (crc: bv32)
    requires table.Length == 256 && forall k :: 0 <= k < 256 ==> table[k] == S5At(k)
    ensures crc == S5Byte(b, c)
  {
    hide S5Slot, S5Entry, B2, S5At, S5Byte;
    var slot := S5Slot(b, c);
    var e := table[slot as int];
    S5Lookup(b, c);
    S5ByteFrom(e, b, c);
    crc := e ^ ((c << 8) & 0xFF_FFFF);
  }

  method ComputeS5Raw(table: array<bv32>, data: seq<bv8>, preset: bv32) returns (crc: bv32)
    requires table.Length == 256 && forall k :: 0 <= k < 256 ==> table[k] == S5At(k)
    ensures crc == S5Raw(data, preset)
  {
    hide S5, S5At, S5Byte;
    crc := preset & 0xFF_FFFF;
    assert data[0..] == data;
    for i := 0 to |data|
      invariant S5(data[i..], crc) == S5Raw(data, preset)
    {
      S5Next(data, i, crc);
      crc := TableStepS5(table, data[i], crc);
    }
    S5Done(data, crc);
  }

  lemma S5Done(data: seq<bv8>, c: bv32)
    ensures S5(data[|data|..], c) == c
  {}

  lemma S5ByteFrom(e: bv32, b: bv8, c: bv32)
    requires e == S5Entry(B2(c) ^ b)
    ensures e ^ ((c << 8) & 0xFF_FFFF) == S5Byte(b, c)
  {
    hide S5Entry, B2;
  }

  lemma S5Index(b: bv8, c: bv32)
    ensures S5Slot(b, c) == B2(c) ^ b
  {}

  lemma S5Lookup(b: bv8, c: bv32)
    ensures S5At(S5Slot(b, c) as int) == S5Entry(B2(c) ^ b)
  {
    hide S5Slot, S5Entry, B2, S5At;
    S5Index(b, c);
    S5AtByte(B2(c) ^ b);
  }

  // ---- Seeds ----

  function PidBytes(vendor: bv16, serial: bv32, connection: bv16): (r: seq<bv8>)
    ensures |r| == 8
  {
    Le16(vendor) + Le32(serial) + Le16(connection)
  }

  function PidSeedS1(vendor: bv16, serial: bv32, connection: bv16): bv8 {
    S1(PidBytes(vendor, serial, connection), 0)
  }

  function PidSeedS3(vendor: bv16, serial: bv32, connection: bv16): bv16 {
    S3(PidBytes(vendor, serial, connection), 0)
  }

  function PidSeedS5(vendor: bv16, serial: bv32, connection: bv16): bv32 {
    S5Raw(PidBytes(vendor, serial, connection), 0)
  }

  function RolloverSeedS3(rollover: bv16, seed: bv16): bv16 {
    S3(Le16(rollover), seed)
  }

  function RolloverSeedS5(rollover: bv16, seed: bv32): bv32 {
    S5Raw(Le16(rollover), seed)
  }
}
