// The three literal lookup tables of the safety CRCs, sixteen rows of sixteen
// entries, read by the high and the low nibble of the index. Each is shown to
// be what eight one-bit division steps make of its index.

module S1Table {

  function Step(c: bv8): bv8 {
    if c & 0x80 != 0 then (c << 1) ^ 0x37 else c << 1
  }

  function Steps8(c: bv8): bv8 {
    Step(Step(Step(Step(Step(Step(Step(Step(c))))))))
  }

  lemma EntryIsEightSteps(i: bv8)
    ensures Entry(i) == Steps8(i)
  {}

  function Entry(i: bv8): bv8 {
    var c := i & 0xF;
    match i >> 4
    case 0 => Row0(c)
    case 1 => Row1(c)
    case 2 => Row2(c)
    case 3 => Row3(c)
    case 4 => Row4(c)
    case 5 => Row5(c)
    case 6 => Row6(c)
    case 7 => Row7(c)
    case 8 => Row8(c)
    case 9 => Row9(c)
    case 10 => RowA(c)
    case 11 => RowB(c)
    case 12 => RowC(c)
    case 13 => RowD(c)
    case 14 => RowE(c)
    case _ => RowF(c)
  }

  function Row0(c: bv8): bv8 {
    match c
    case 0 => 0x00 case 1 => 0x37 case 2 => 0x6e case 3 => 0x59
    case 4 => 0xdc case 5 => 0xeb case 6 => 0xb2 case 7 => 0x85
    case 8 => 0x8f case 9 => 0xb8 case 10 => 0xe1 case 11 => 0xd6
    case 12 => 0x53 case 13 => 0x64 case 14 => 0x3d case _ => 0x0a
  }

  function Row1(c: bv8): bv8 {
    match c
    case 0 => 0x29 case 1 => 0x1e case 2 => 0x47 case 3 => 0x70
    case 4 => 0xf5 case 5 => 0xc2 case 6 => 0x9b case 7 => 0xac
    case 8 => 0xa6 case 9 => 0x91 case 10 => 0xc8 case 11 => 0xff
    case 12 => 0x7a case 13 => 0x4d case 14 => 0x14 case _ => 0x23
  }

  function Row2(c: bv8): bv8 {
    match c
    case 0 => 0x52 case 1 => 0x65 case 2 => 0x3c case 3 => 0x0b
    case 4 => 0x8e case 5 => 0xb9 case 6 => 0xe0 case 7 => 0xd7
    case 8 => 0xdd case 9 => 0xea case 10 => 0xb3 case 11 => 0x84
    case 12 => 0x01 case 13 => 0x36 case 14 => 0x6f case _ => 0x58
  }

  function Row3(c: bv8): bv8 {
    match c
    case 0 => 0x7b case 1 => 0x4c case 2 => 0x15 case 3 => 0x22
    case 4 => 0xa7 case 5 => 0x90 case 6 => 0xc9 case 7 => 0xfe
    case 8 => 0xf4 case 9 => 0xc3 case 10 => 0x9a case 11 => 0xad
    case 12 => 0x28 case 13 => 0x1f case 14 => 0x46 case _ => 0x71
  }

  function Row4(c: bv8): bv8 {
    match c
    case 0 => 0xa4 case 1 => 0x93 case 2 => 0xca case 3 => 0xfd
    case 4 => 0x78 case 5 => 0x4f case 6 => 0x16 case 7 => 0x21
    case 8 => 0x2b case 9 => 0x1c case 10 => 0x45 case 11 => 0x72
    case 12 => 0xf7 case 13 => 0xc0 case 14 => 0x99 case _ => 0xae
  }

  function Row5(c: bv8): bv8 {
    match c
    case 0 => 0x8d case 1 => 0xba case 2 => 0xe3 case 3 => 0xd4
    case 4 => 0x51 case 5 => 0x66 case 6 => 0x3f case 7 => 0x08
    case 8 => 0x02 case 9 => 0x35 case 10 => 0x6c case 11 => 0x5b
    case 12 => 0xde case 13 => 0xe9 case 14 => 0xb0 case _ => 0x87
  }

  function Row6(c: bv8): bv8 {
    match c
    case 0 => 0xf6 case 1 => 0xc1 case 2 => 0x98 case 3 => 0xaf
    case 4 => 0x2a case 5 => 0x1d case 6 => 0x44 case 7 => 0x73
    case 8 => 0x79 case 9 => 0x4e case 10 => 0x17 case 11 => 0x20
    case 12 => 0xa5 case 13 => 0x92 case 14 => 0xcb case _ => 0xfc
  }

  function Row7(c: bv8): bv8 {
    match c
    case 0 => 0xdf case 1 => 0xe8 case 2 => 0xb1 case 3 => 0x86
    case 4 => 0x03 case 5 => 0x34 case 6 => 0x6d case 7 => 0x5a
    case 8 => 0x50 case 9 => 0x67 case 10 => 0x3e case 11 => 0x09
    case 12 => 0x8c case 13 => 0xbb case 14 => 0xe2 case _ => 0xd5
  }

  function Row8(c: bv8): bv8 {
    match c
    case 0 => 0x7f case 1 => 0x48 case 2 => 0x11 case 3 => 0x26
    case 4 => 0xa3 case 5 => 0x94 case 6 => 0xcd case 7 => 0xfa
    case 8 => 0xf0 case 9 => 0xc7 case 10 => 0x9e case 11 => 0xa9
    case 12 => 0x2c case 13 => 0x1b case 14 => 0x42 case _ => 0x75
  }

  function Row9(c: bv8): bv8 {
    match c
    case 0 => 0x56 case 1 => 0x61 case 2 => 0x38 case 3 => 0x0f
    case 4 => 0x8a case 5 => 0xbd case 6 => 0xe4 case 7 => 0xd3
    case 8 => 0xd9 case 9 => 0xee case 10 => 0xb7 case 11 => 0x80
    case 12 => 0x05 case 13 => 0x32 case 14 => 0x6b case _ => 0x5c
  }

  function RowA(c: bv8): bv8 {
    match c
    case 0 => 0x2d case 1 => 0x1a case 2 => 0x43 case 3 => 0x74
    case 4 => 0xf1 case 5 => 0xc6 case 6 => 0x9f case 7 => 0xa8
    case 8 => 0xa2 case 9 => 0x95 case 10 => 0xcc case 11 => 0xfb
    case 12 => 0x7e case 13 => 0x49 case 14 => 0x10 case _ => 0x27
  }

  function RowB(c: bv8): bv8 {
    match c
    case 0 => 0x04 case 1 => 0x33 case 2 => 0x6a case 3 => 0x5d
    case 4 => 0xd8 case 5 => 0xef case 6 => 0xb6 case 7 => 0x81
    case 8 => 0x8b case 9 => 0xbc case 10 => 0xe5 case 11 => 0xd2
    case 12 => 0x57 case 13 => 0x60 case 14 => 0x39 case _ => 0x0e
  }

  function RowC(c: bv8): bv8 {
    match c
    case 0 => 0xdb case 1 => 0xec case 2 => 0xb5 case 3 => 0x82
    case 4 => 0x07 case 5 => 0x30 case 6 => 0x69 case 7 => 0x5e
    case 8 => 0x54 case 9 => 0x63 case 10 => 0x3a case 11 => 0x0d
    case 12 => 0x88 case 13 => 0xbf case 14 => 0xe6 case _ => 0xd1
  }

  function RowD(c: bv8): bv8 {
    match c
    case 0 => 0xf2 case 1 => 0xc5 case 2 => 0x9c case 3 => 0xab
    case 4 => 0x2e case 5 => 0x19 case 6 => 0x40 case 7 => 0x77
    case 8 => 0x7d case 9 => 0x4a case 10 => 0x13 case 11 => 0x24
    case 12 => 0xa1 case 13 => 0x96 case 14 => 0xcf case _ => 0xf8
  }

  function RowE(c: bv8): bv8 {
    match c
    case 0 => 0x89 case 1 => 0xbe case 2 => 0xe7 case 3 => 0xd0
    case 4 => 0x55 case 5 => 0x62 case 6 => 0x3b case 7 => 0x0c
    case 8 => 0x06 case 9 => 0x31 case 10 => 0x68 case 11 => 0x5f
    case 12 => 0xda case 13 => 0xed case 14 => 0xb4 case _ => 0x83
  }

  function RowF(c: bv8): bv8 {
    match c
    case 0 => 0xa0 case 1 => 0x97 case 2 => 0xce case 3 => 0xf9
    case 4 => 0x7c case 5 => 0x4b case 6 => 0x12 case 7 => 0x25
    case 8 => 0x2f case 9 => 0x18 case 10 => 0x41 case 11 => 0x76
    case 12 => 0xf3 case 13 => 0xc4 case 14 => 0x9d case _ => 0xaa
  }
}

module S2Table {

  function Step(c: bv8): bv8 {
    if c & 0x80 != 0 then (c << 1) ^ 0x3B else c << 1
  }

  function Steps8(c: bv8): bv8 {
    Step(Step(Step(Step(Step(Step(Step(Step(c))))))))
  }

  lemma EntryIsEightSteps(i: bv8)
    ensures Entry(i) == Steps8(i)
  {}

  function Entry(i: bv8): bv8 {
    var c := i & 0xF;
    match i >> 4
    case 0 => Row0(c)
    case 1 => Row1(c)
    case 2 => Row2(c)
    case 3 => Row3(c)
    case 4 => Row4(c)
    case 5 => Row5(c)
    case 6 => Row6(c)
    case 7 => Row7(c)
    case 8 => Row8(c)
    case 9 => Row9(c)
    case 10 => RowA(c)
    case 11 => RowB(c)
    case 12 => RowC(c)
    case 13 => RowD(c)
    case 14 => RowE(c)
    case _ => RowF(c)
  }

  function Row0(c: bv8): bv8 {
    match c
    case 0 => 0x00 case 1 => 0x3b case 2 => 0x76 case 3 => 0x4d
    case 4 => 0xec case 5 => 0xd7 case 6 => 0x9a case 7 => 0xa1
    case 8 => 0xe3 case 9 => 0xd8 case 10 => 0x95 case 11 => 0xae
    case 12 => 0x0f case 13 => 0x34 case 14 => 0x79 case _ => 0x42
  }

  function Row1(c: bv8): bv8 {
    match c
    case 0 => 0xfd case 1 => 0xc6 case 2 => 0x8b case 3 => 0xb0
    case 4 => 0x11 case 5 => 0x2a case 6 => 0x67 case 7 => 0x5c
    case 8 => 0x1e case 9 => 0x25 case 10 => 0x68 case 11 => 0x53
    case 12 => 0xf2 case 13 => 0xc9 case 14 => 0x84 case _ => 0xbf
  }

  function Row2(c: bv8): bv8 {
    match c
    case 0 => 0xc1 case 1 => 0xfa case 2 => 0xb7 case 3 => 0x8c
    case 4 => 0x2d case 5 => 0x16 case 6 => 0x5b case 7 => 0x60
    case 8 => 0x22 case 9 => 0x19 case 10 => 0x54 case 11 => 0x6f
    case 12 => 0xce case 13 => 0xf5 case 14 => 0xb8 case _ => 0x83
  }

  function Row3(c: bv8): bv8 {
    match c
    case 0 => 0x3c case 1 => 0x07 case 2 => 0x4a case 3 => 0x71
    case 4 => 0xd0 case 5 => 0xeb case 6 => 0xa6 case 7 => 0x9d
    case 8 => 0xdf case 9 => 0xe4 case 10 => 0xa9 case 11 => 0x92
    case 12 => 0x33 case 13 => 0x08 case 14 => 0x45 case _ => 0x7e
  }

  function Row4(c: bv8): bv8 {
    match c
    case 0 => 0xb9 case 1 => 0x82 case 2 => 0xcf case 3 => 0xf4
    case 4 => 0x55 case 5 => 0x6e case 6 => 0x23 case 7 => 0x18
    case 8 => 0x5a case 9 => 0x61 case 10 => 0x2c case 11 => 0x17
    case 12 => 0xb6 case 13 => 0x8d case 14 => 0xc0 case _ => 0xfb
  }

  function Row5(c: bv8): bv8 {
    match c
    case 0 => 0x44 case 1 => 0x7f case 2 => 0x32 case 3 => 0x09
    case 4 => 0xa8 case 5 => 0x93 case 6 => 0xde case 7 => 0xe5
    case 8 => 0xa7 case 9 => 0x9c case 10 => 0xd1 case 11 => 0xea
    case 12 => 0x4b case 13 => 0x70 case 14 => 0x3d case _ => 0x06
  }

  function Row6(c: bv8): bv8 {
    match c
    case 0 => 0x78 case 1 => 0x43 case 2 => 0x0e case 3 => 0x35
    case 4 => 0x94 case 5 => 0xaf case 6 => 0xe2 case 7 => 0xd9
    case 8 => 0x9b case 9 => 0xa0 case 10 => 0xed case 11 => 0xd6
    case 12 => 0x77 case 13 => 0x4c case 14 => 0x01 case _ => 0x3a
  }

  function Row7(c: bv8): bv8 {
    match c
    case 0 => 0x85 case 1 => 0xbe case 2 => 0xf3 case 3 => 0xc8
    case 4 => 0x69 case 5 => 0x52 case 6 => 0x1f case 7 => 0x24
    case 8 => 0x66 case 9 => 0x5d case 10 => 0x10 case 11 => 0x2b
    case 12 => 0x8a case 13 => 0xb1 case 14 => 0xfc case _ => 0xc7
  }

  function Row8(c: bv8): bv8 {
    match c
    case 0 => 0x49 case 1 => 0x72 case 2 => 0x3f case 3 => 0x04
    case 4 => 0xa5 case 5 => 0x9e case 6 => 0xd3 case 7 => 0xe8
    case 8 => 0xaa case 9 => 0x91 case 10 => 0xdc case 11 => 0xe7
    case 12 => 0x46 case 13 => 0x7d case 14 => 0x30 case _ => 0x0b
  }

  function Row9(c: bv8): bv8 {
    match c
    case 0 => 0xb4 case 1 => 0x8f case 2 => 0xc2 case 3 => 0xf9
    case 4 => 0x58 case 5 => 0x63 case 6 => 0x2e case 7 => 0x15
    case 8 => 0x57 case 9 => 0x6c case 10 => 0x21 case 11 => 0x1a
    case 12 => 0xbb case 13 => 0x80 case 14 => 0xcd case _ => 0xf6
  }

  function RowA(c: bv8): bv8 {
    match c
    case 0 => 0x88 case 1 => 0xb3 case 2 => 0xfe case 3 => 0xc5
    case 4 => 0x64 case 5 => 0x5f case 6 => 0x12 case 7 => 0x29
    case 8 => 0x6b case 9 => 0x50 case 10 => 0x1d case 11 => 0x26
    case 12 => 0x87 case 13 => 0xbc case 14 => 0xf1 case _ => 0xca
  }

  function RowB(c: bv8): bv8 {
    match c
    case 0 => 0x75 case 1 => 0x4e case 2 => 0x03 case 3 => 0x38
    case 4 => 0x99 case 5 => 0xa2 case 6 => 0xef case 7 => 0xd4
    case 8 => 0x96 case 9 => 0xad case 10 => 0xe0 case 11 => 0xdb
    case 12 => 0x7a case 13 => 0x41 case 14 => 0x0c case _ => 0x37
  }

  function RowC(c: bv8): bv8 {
    match c
    case 0 => 0xf0 case 1 => 0xcb case 2 => 0x86 case 3 => 0xbd
    case 4 => 0x1c case 5 => 0x27 case 6 => 0x6a case 7 => 0x51
    case 8 => 0x13 case 9 => 0x28 case 10 => 0x65 case 11 => 0x5e
    case 12 => 0xff case 13 => 0xc4 case 14 => 0x89 case _ => 0xb2
  }

  function RowD(c: bv8): bv8 {
    match c
    case 0 => 0x0d case 1 => 0x36 case 2 => 0x7b case 3 => 0x40
    case 4 => 0xe1 case 5 => 0xda case 6 => 0x97 case 7 => 0xac
    case 8 => 0xee case 9 => 0xd5 case 10 => 0x98 case 11 => 0xa3
    case 12 => 0x02 case 13 => 0x39 case 14 => 0x74 case _ => 0x4f
  }

  function RowE(c: bv8): bv8 {
    match c
    case 0 => 0x31 case 1 => 0x0a case 2 => 0x47 case 3 => 0x7c
    case 4 => 0xdd case 5 => 0xe6 case 6 => 0xab case 7 => 0x90
    case 8 => 0xd2 case 9 => 0xe9 case 10 => 0xa4 case 11 => 0x9f
    case 12 => 0x3e case 13 => 0x05 case 14 => 0x48 case _ => 0x73
  }

  function RowF(c: bv8): bv8 {
    match c
    case 0 => 0xcc case 1 => 0xf7 case 2 => 0xba case 3 => 0x81
    case 4 => 0x20 case 5 => 0x1b case 6 => 0x56 case 7 => 0x6d
    case 8 => 0x2f case 9 => 0x14 case 10 => 0x59 case 11 => 0x62
    case 12 => 0xc3 case 13 => 0xf8 case 14 => 0xb5 case _ => 0x8e
  }
}

module S3Table {

  function Step(c: bv16): bv16 {
    if c & 0x8000 != 0 then (c << 1) ^ 0x080F else c << 1
  }

  function Steps8(c: bv16): bv16 {
    Step(Step(Step(Step(Step(Step(Step(Step(c))))))))
  }

  lemma FirstRow(i: bv8)
    requires i < 0x10
    ensures Row0(i) == Steps8((i as bv16) << 8)
  {}

  lemma FirstRows(i: bv8)
    requires i < 0x40
    ensures Entry(i) == Steps8((i as bv16) << 8)
  {
    if i < 0x10 {
      hide Row0, Steps8;
      FirstRow(i);
    }
  }

  lemma SecondRows(i: bv8)
    requires 0x40 <= i < 0x80
    ensures Entry(i) == Steps8((i as bv16) << 8)
  {}

  lemma ThirdRows(i: bv8)
    requires 0x80 <= i < 0xC0
    ensures Entry(i) == Steps8((i as bv16) << 8)
  {}

  lemma LastRows(i: bv8)
    requires 0xC0 <= i
    ensures Entry(i) == Steps8((i as bv16) << 8)
  {}

  lemma EntryIsEightSteps(i: bv8)
    ensures Entry(i) == Steps8((i as bv16) << 8)
  {
    hide Entry, Steps8;
    if i < 0x40 {
      FirstRows(i);
    } else if i < 0x80 {
      SecondRows(i);
    } else if i < 0xC0 {
      ThirdRows(i);
    } else {
      LastRows(i);
    }
  }

  function Entry(i: bv8): bv16 {
    var c := i & 0xF;
    match i >> 4
    case 0 => Row0(c)
    case 1 => Row1(c)
    case 2 => Row2(c)
    case 3 => Row3(c)
    case 4 => Row4(c)
    case 5 => Row5(c)
    case 6 => Row6(c)
    case 7 => Row7(c)
    case 8 => Row8(c)
    case 9 => Row9(c)
    case 10 => RowA(c)
    case 11 => RowB(c)
    case 12 => RowC(c)
    case 13 => RowD(c)
    case 14 => RowE(c)
    case _ => RowF(c)
  }

  function Row0(c: bv8): bv16 {
    match c
    case 0 => 0x0000 case 1 => 0x080f case 2 => 0x101e case 3 => 0x1811
    case 4 => 0x203c case 5 => 0x2833 case 6 => 0x3022 case 7 => 0x382d
    case 8 => 0x4078 case 9 => 0x4877 case 10 => 0x5066 case 11 => 0x5869
    case 12 => 0x6044 case 13 => 0x684b case 14 => 0x705a case _ => 0x7855
  }

  function Row1(c: bv8): bv16 {
    match c
    case 0 => 0x80f0 case 1 => 0x88ff case 2 => 0x90ee case 3 => 0x98e1
    case 4 => 0xa0cc case 5 => 0xa8c3 case 6 => 0xb0d2 case 7 => 0xb8dd
    case 8 => 0xc088 case 9 => 0xc887 case 10 => 0xd096 case 11 => 0xd899
    case 12 => 0xe0b4 case 13 => 0xe8bb case 14 => 0xf0aa case _ => 0xf8a5
  }

  function Row2(c: bv8): bv16 {
    match c
    case 0 => 0x09ef case 1 => 0x01e0 case 2 => 0x19f1 case 3 => 0x11fe
    case 4 => 0x29d3 case 5 => 0x21dc case 6 => 0x39cd case 7 => 0x31c2
    case 8 => 0x4997 case 9 => 0x4198 case 10 => 0x5989 case 11 => 0x5186
    case 12 => 0x69ab case 13 => 0x61a4 case 14 => 0x79b5 case _ => 0x71ba
  }

  function Row3(c: bv8): bv16 {
    match c
    case 0 => 0x891f case 1 => 0x8110 case 2 => 0x9901 case 3 => 0x910e
    case 4 => 0xa923 case 5 => 0xa12c case 6 => 0xb93d case 7 => 0xb132
    case 8 => 0xc967 case 9 => 0xc168 case 10 => 0xd979 case 11 => 0xd176
    case 12 => 0xe95b case 13 => 0xe154 case 14 => 0xf945 case _ => 0xf14a
  }

  function Row4(c: bv8): bv16 {
    match c
    case 0 => 0x13de case 1 => 0x1bd1 case 2 => 0x03c0 case 3 => 0x0bcf
    case 4 => 0x33e2 case 5 => 0x3bed case 6 => 0x23fc case 7 => 0x2bf3
    case 8 => 0x53a6 case 9 => 0x5ba9 case 10 => 0x43b8 case 11 => 0x4bb7
    case 12 => 0x739a case 13 => 0x7b95 case 14 => 0x6384 case _ => 0x6b8b
  }

  function Row5(c: bv8): bv16 {
    match c
    case 0 => 0x932e case 1 => 0x9b21 case 2 => 0x8330 case 3 => 0x8b3f
    case 4 => 0xb312 case 5 => 0xbb1d case 6 => 0xa30c case 7 => 0xab03
    case 8 => 0xd356 case 9 => 0xdb59 case 10 => 0xc348 case 11 => 0xcb47
    case 12 => 0xf36a case 13 => 0xfb65 case 14 => 0xe374 case _ => 0xeb7b
  }

  function Row6(c: bv8): bv16 {
    match c
    case 0 => 0x1a31 case 1 => 0x123e case 2 => 0x0a2f case 3 => 0x0220
    case 4 => 0x3a0d case 5 => 0x3202 case 6 => 0x2a13 case 7 => 0x221c
    case 8 => 0x5a49 case 9 => 0x5246 case 10 => 0x4a57 case 11 => 0x4258
    case 12 => 0x7a75 case 13 => 0x727a case 14 => 0x6a6b case _ => 0x6264
  }

  function Row7(c: bv8): bv16 {
    match c
    case 0 => 0x9ac1 case 1 => 0x92ce case 2 => 0x8adf case 3 => 0x82d0
    case 4 => 0xbafd case 5 => 0xb2f2 case 6 => 0xaae3 case 7 => 0xa2ec
    case 8 => 0xdab9 case 9 => 0xd2b6 case 10 => 0xcaa7 case 11 => 0xc2a8
    case 12 => 0xfa85 case 13 => 0xf28a case 14 => 0xea9b case _ => 0xe294
  }

  function Row8(c: bv8): bv16 {
    match c
    case 0 => 0x27bc case 1 => 0x2fb3 case 2 => 0x37a2 case 3 => 0x3fad
    case 4 => 0x0780 case 5 => 0x0f8f case 6 => 0x179e case 7 => 0x1f91
    case 8 => 0x67c4 case 9 => 0x6fcb case 10 => 0x77da case 11 => 0x7fd5
    case 12 => 0x47f8 case 13 => 0x4ff7 case 14 => 0x57e6 case _ => 0x5fe9
  }

  function Row9(c: bv8): bv16 {
    match c
    case 0 => 0xa74c case 1 => 0xaf43 case 2 => 0xb752 case 3 => 0xbf5d
    case 4 => 0x8770 case 5 => 0x8f7f case 6 => 0x976e case 7 => 0x9f61
    case 8 => 0xe734 case 9 => 0xef3b case 10 => 0xf72a case 11 => 0xff25
    case 12 => 0xc708 case 13 => 0xcf07 case 14 => 0xd716 case _ => 0xdf19
  }

  function RowA(c: bv8): bv16 {
    match c
    case 0 => 0x2e53 case 1 => 0x265c case 2 => 0x3e4d case 3 => 0x3642
    case 4 => 0x0e6f case 5 => 0x0660 case 6 => 0x1e71 case 7 => 0x167e
    case 8 => 0x6e2b case 9 => 0x6624 case 10 => 0x7e35 case 11 => 0x763a
    case 12 => 0x4e17 case 13 => 0x4618 case 14 => 0x5e09 case _ => 0x5606
  }

  function RowB(c: bv8): bv16 {
    match c
    case 0 => 0xaea3 case 1 => 0xa6ac case 2 => 0xbebd case 3 => 0xb6b2
    case 4 => 0x8e9f case 5 => 0x8690 case 6 => 0x9e81 case 7 => 0x968e
    case 8 => 0xeedb case 9 => 0xe6d4 case 10 => 0xfec5 case 11 => 0xf6ca
    case 12 => 0xcee7 case 13 => 0xc6e8 case 14 => 0xdef9 case _ => 0xd6f6
  }

  function RowC(c: bv8): bv16 {
    match c
    case 0 => 0x3462 case 1 => 0x3c6d case 2 => 0x247c case 3 => 0x2c73
    case 4 => 0x145e case 5 => 0x1c51 case 6 => 0x0440 case 7 => 0x0c4f
    case 8 => 0x741a case 9 => 0x7c15 case 10 => 0x6404 case 11 => 0x6c0b
    case 12 => 0x5426 case 13 => 0x5c29 case 14 => 0x4438 case _ => 0x4c37
  }

  function RowD(c: bv8): bv16 {
    match c
    case 0 => 0xb492 case 1 => 0xbc9d case 2 => 0xa48c case 3 => 0xac83
    case 4 => 0x94ae case 5 => 0x9ca1 case 6 => 0x84b0 case 7 => 0x8cbf
    case 8 => 0xf4ea case 9 => 0xfce5 case 10 => 0xe4f4 case 11 => 0xecfb
    case 12 => 0xd4d6 case 13 => 0xdcd9 case 14 => 0xc4c8 case _ => 0xccc7
  }

  function RowE(c: bv8): bv16 {
    match c
    case 0 => 0x3d8d case 1 => 0x3582 case 2 => 0x2d93 case 3 => 0x259c
    case 4 => 0x1db1 case 5 => 0x15be case 6 => 0x0daf case 7 => 0x05a0
    case 8 => 0x7df5 case 9 => 0x75fa case 10 => 0x6deb case 11 => 0x65e4
    case 12 => 0x5dc9 case 13 => 0x55c6 case 14 => 0x4dd7 case _ => 0x45d8
  }

  function RowF(c: bv8): bv16 {
    match c
    case 0 => 0xbd7d case 1 => 0xb572 case 2 => 0xad63 case 3 => 0xa56c
    case 4 => 0x9d41 case 5 => 0x954e case 6 => 0x8d5f case 7 => 0x8550
    case 8 => 0xfd05 case 9 => 0xf50a case 10 => 0xed1b case 11 => 0xe514
    case 12 => 0xdd39 case 13 => 0xd536 case 14 => 0xcd27 case _ => 0xc528
  }
}
