/** The substitution table of the cipher, row by row, and the table that undoes it.  The tables are
    functions over the high and the low half of a byte, so that looking up a byte unfolds one row only.  Each
    undoes the other, on all two hundred and fifty-six bytes, so the substitution loses nothing. */
module AesTable {
  function SubRow0(c: bv8): bv8 {
    if c == 0 then 0x63 else if c == 1 then 0x7c else if c == 2 then 0x77 else
    if c == 3 then 0x7b else if c == 4 then 0xf2 else
    if c == 5 then 0x6b else if c == 6 then 0x6f else if c == 7 then 0xc5 else
    if c == 8 then 0x30 else if c == 9 then 0x01 else
    if c == 10 then 0x67 else if c == 11 then 0x2b else if c == 12 then 0xfe else
    if c == 13 then 0xd7 else if c == 14 then 0xab else
    0x76
  }

  function SubRow1(c: bv8): bv8 {
    if c == 0 then 0xca else if c == 1 then 0x82 else if c == 2 then 0xc9 else
    if c == 3 then 0x7d else if c == 4 then 0xfa else
    if c == 5 then 0x59 else if c == 6 then 0x47 else if c == 7 then 0xf0 else
    if c == 8 then 0xad else if c == 9 then 0xd4 else
    if c == 10 then 0xa2 else if c == 11 then 0xaf else if c == 12 then 0x9c else
    if c == 13 then 0xa4 else if c == 14 then 0x72 else
    0xc0
  }

  function SubRow2(c: bv8): bv8 {
    if c == 0 then 0xb7 else if c == 1 then 0xfd else if c == 2 then 0x93 else
    if c == 3 then 0x26 else if c == 4 then 0x36 else
    if c == 5 then 0x3f else if c == 6 then 0xf7 else if c == 7 then 0xcc else
    if c == 8 then 0x34 else if c == 9 then 0xa5 else
    if c == 10 then 0xe5 else if c == 11 then 0xf1 else if c == 12 then 0x71 else
    if c == 13 then 0xd8 else if c == 14 then 0x31 else
    0x15
  }

  function SubRow3(c: bv8): bv8 {
    if c == 0 then 0x04 else if c == 1 then 0xc7 else if c == 2 then 0x23 else
    if c == 3 then 0xc3 else if c == 4 then 0x18 else
    if c == 5 then 0x96 else if c == 6 then 0x05 else if c == 7 then 0x9a else
    if c == 8 then 0x07 else if c == 9 then 0x12 else
    if c == 10 then 0x80 else if c == 11 then 0xe2 else if c == 12 then 0xeb else
    if c == 13 then 0x27 else if c == 14 then 0xb2 else
    0x75
  }

  function SubRow4(c: bv8): bv8 {
    if c == 0 then 0x09 else if c == 1 then 0x83 else if c == 2 then 0x2c else
    if c == 3 then 0x1a else if c == 4 then 0x1b else
    if c == 5 then 0x6e else if c == 6 then 0x5a else if c == 7 then 0xa0 else
    if c == 8 then 0x52 else if c == 9 then 0x3b else
    if c == 10 then 0xd6 else if c == 11 then 0xb3 else if c == 12 then 0x29 else
    if c == 13 then 0xe3 else if c == 14 then 0x2f else
    0x84
  }

  function SubRow5(c: bv8): bv8 {
    if c == 0 then 0x53 else if c == 1 then 0xd1 else if c == 2 then 0x00 else
    if c == 3 then 0xed else if c == 4 then 0x20 else
    if c == 5 then 0xfc else if c == 6 then 0xb1 else if c == 7 then 0x5b else
    if c == 8 then 0x6a else if c == 9 then 0xcb else
    if c == 10 then 0xbe else if c == 11 then 0x39 else if c == 12 then 0x4a else
    if c == 13 then 0x4c else if c == 14 then 0x58 else
    0xcf
  }

  function SubRow6(c: bv8): bv8 {
    if c == 0 then 0xd0 else if c == 1 then 0xef else if c == 2 then 0xaa else
    if c == 3 then 0xfb else if c == 4 then 0x43 else
    if c == 5 then 0x4d else if c == 6 then 0x33 else if c == 7 then 0x85 else
    if c == 8 then 0x45 else if c == 9 then 0xf9 else
    if c == 10 then 0x02 else if c == 11 then 0x7f else if c == 12 then 0x50 else
    if c == 13 then 0x3c else if c == 14 then 0x9f else
    0xa8
  }

  function SubRow7(c: bv8): bv8 {
    if c == 0 then 0x51 else if c == 1 then 0xa3 else if c == 2 then 0x40 else
    if c == 3 then 0x8f else if c == 4 then 0x92 else
    if c == 5 then 0x9d else if c == 6 then 0x38 else if c == 7 then 0xf5 else
    if c == 8 then 0xbc else if c == 9 then 0xb6 else
    if c == 10 then 0xda else if c == 11 then 0x21 else if c == 12 then 0x10 else
    if c == 13 then 0xff else if c == 14 then 0xf3 else
    0xd2
  }

  function SubRow8(c: bv8): bv8 {
    if c == 0 then 0xcd else if c == 1 then 0x0c else if c == 2 then 0x13 else
    if c == 3 then 0xec else if c == 4 then 0x5f else
    if c == 5 then 0x97 else if c == 6 then 0x44 else if c == 7 then 0x17 else
    if c == 8 then 0xc4 else if c == 9 then 0xa7 else
    if c == 10 then 0x7e else if c == 11 then 0x3d else if c == 12 then 0x64 else
    if c == 13 then 0x5d else if c == 14 then 0x19 else
    0x73
  }

  function SubRow9(c: bv8): bv8 {
    if c == 0 then 0x60 else if c == 1 then 0x81 else if c == 2 then 0x4f else
    if c == 3 then 0xdc else if c == 4 then 0x22 else
    if c == 5 then 0x2a else if c == 6 then 0x90 else if c == 7 then 0x88 else
    if c == 8 then 0x46 else if c == 9 then 0xee else
    if c == 10 then 0xb8 else if c == 11 then 0x14 else if c == 12 then 0xde else
    if c == 13 then 0x5e else if c == 14 then 0x0b else
    0xdb
  }

  function SubRowA(c: bv8): bv8 {
    if c == 0 then 0xe0 else if c == 1 then 0x32 else if c == 2 then 0x3a else
    if c == 3 then 0x0a else if c == 4 then 0x49 else
    if c == 5 then 0x06 else if c == 6 then 0x24 else if c == 7 then 0x5c else
    if c == 8 then 0xc2 else if c == 9 then 0xd3 else
    if c == 10 then 0xac else if c == 11 then 0x62 else if c == 12 then 0x91 else
    if c == 13 then 0x95 else if c == 14 then 0xe4 else
    0x79
  }

  function SubRowB(c: bv8): bv8 {
    if c == 0 then 0xe7 else if c == 1 then 0xc8 else if c == 2 then 0x37 else
    if c == 3 then 0x6d else if c == 4 then 0x8d else
    if c == 5 then 0xd5 else if c == 6 then 0x4e else if c == 7 then 0xa9 else
    if c == 8 then 0x6c else if c == 9 then 0x56 else
    if c == 10 then 0xf4 else if c == 11 then 0xea else if c == 12 then 0x65 else
    if c == 13 then 0x7a else if c == 14 then 0xae else
    0x08
  }

  function SubRowC(c: bv8): bv8 {
    if c == 0 then 0xba else if c == 1 then 0x78 else if c == 2 then 0x25 else
    if c == 3 then 0x2e else if c == 4 then 0x1c else
    if c == 5 then 0xa6 else if c == 6 then 0xb4 else if c == 7 then 0xc6 else
    if c == 8 then 0xe8 else if c == 9 then 0xdd else
    if c == 10 then 0x74 else if c == 11 then 0x1f else if c == 12 then 0x4b else
    if c == 13 then 0xbd else if c == 14 then 0x8b else
    0x8a
  }

  function SubRowD(c: bv8): bv8 {
    if c == 0 then 0x70 else if c == 1 then 0x3e else if c == 2 then 0xb5 else
    if c == 3 then 0x66 else if c == 4 then 0x48 else
    if c == 5 then 0x03 else if c == 6 then 0xf6 else if c == 7 then 0x0e else
    if c == 8 then 0x61 else if c == 9 then 0x35 else
    if c == 10 then 0x57 else if c == 11 then 0xb9 else if c == 12 then 0x86 else
    if c == 13 then 0xc1 else if c == 14 then 0x1d else
    0x9e
  }

  function SubRowE(c: bv8): bv8 {
    if c == 0 then 0xe1 else if c == 1 then 0xf8 else if c == 2 then 0x98 else
    if c == 3 then 0x11 else if c == 4 then 0x69 else
    if c == 5 then 0xd9 else if c == 6 then 0x8e else if c == 7 then 0x94 else
    if c == 8 then 0x9b else if c == 9 then 0x1e else
    if c == 10 then 0x87 else if c == 11 then 0xe9 else if c == 12 then 0xce else
    if c == 13 then 0x55 else if c == 14 then 0x28 else
    0xdf
  }

  function SubRowF(c: bv8): bv8 {
    if c == 0 then 0x8c else if c == 1 then 0xa1 else if c == 2 then 0x89 else
    if c == 3 then 0x0d else if c == 4 then 0xbf else
    if c == 5 then 0xe6 else if c == 6 then 0x42 else if c == 7 then 0x68 else
    if c == 8 then 0x41 else if c == 9 then 0x99 else
    if c == 10 then 0x2d else if c == 11 then 0x0f else if c == 12 then 0xb0 else
    if c == 13 then 0x54 else if c == 14 then 0xbb else
    0x16
  }

  /** The substitution table. */
  function Sub(x: bv8): bv8 {
    var r, c := x / 16, x % 16;
    if r == 0 then SubRow0(c) else if r == 1 then SubRow1(c) else
    if r == 2 then SubRow2(c) else if r == 3 then SubRow3(c) else
    if r == 4 then SubRow4(c) else if r == 5 then SubRow5(c) else
    if r == 6 then SubRow6(c) else if r == 7 then SubRow7(c) else
    if r == 8 then SubRow8(c) else if r == 9 then SubRow9(c) else
    if r == 10 then SubRowA(c) else if r == 11 then SubRowB(c) else
    if r == 12 then SubRowC(c) else if r == 13 then SubRowD(c) else if r == 14 then SubRowE(c) else
    SubRowF(c)
  }

  function InverseSubRow0(c: bv8): bv8 {
    if c == 0 then 0x52 else if c == 1 then 0x09 else if c == 2 then 0x6a else
    if c == 3 then 0xd5 else if c == 4 then 0x30 else
    if c == 5 then 0x36 else if c == 6 then 0xa5 else if c == 7 then 0x38 else
    if c == 8 then 0xbf else if c == 9 then 0x40 else
    if c == 10 then 0xa3 else if c == 11 then 0x9e else if c == 12 then 0x81 else
    if c == 13 then 0xf3 else if c == 14 then 0xd7 else
    0xfb
  }

  function InverseSubRow1(c: bv8): bv8 {
    if c == 0 then 0x7c else if c == 1 then 0xe3 else if c == 2 then 0x39 else
    if c == 3 then 0x82 else if c == 4 then 0x9b else
    if c == 5 then 0x2f else if c == 6 then 0xff else if c == 7 then 0x87 else
    if c == 8 then 0x34 else if c == 9 then 0x8e else
    if c == 10 then 0x43 else if c == 11 then 0x44 else if c == 12 then 0xc4 else
    if c == 13 then 0xde else if c == 14 then 0xe9 else
    0xcb
  }

  function InverseSubRow2(c: bv8): bv8 {
    if c == 0 then 0x54 else if c == 1 then 0x7b else if c == 2 then 0x94 else
    if c == 3 then 0x32 else if c == 4 then 0xa6 else
    if c == 5 then 0xc2 else if c == 6 then 0x23 else if c == 7 then 0x3d else
    if c == 8 then 0xee else if c == 9 then 0x4c else
    if c == 10 then 0x95 else if c == 11 then 0x0b else if c == 12 then 0x42 else
    if c == 13 then 0xfa else if c == 14 then 0xc3 else
    0x4e
  }

  function InverseSubRow3(c: bv8): bv8 {
    if c == 0 then 0x08 else if c == 1 then 0x2e else if c == 2 then 0xa1 else
    if c == 3 then 0x66 else if c == 4 then 0x28 else
    if c == 5 then 0xd9 else if c == 6 then 0x24 else if c == 7 then 0xb2 else
    if c == 8 then 0x76 else if c == 9 then 0x5b else
    if c == 10 then 0xa2 else if c == 11 then 0x49 else if c == 12 then 0x6d else
    if c == 13 then 0x8b else if c == 14 then 0xd1 else
    0x25
  }

  function InverseSubRow4(c: bv8): bv8 {
    if c == 0 then 0x72 else if c == 1 then 0xf8 else if c == 2 then 0xf6 else
    if c == 3 then 0x64 else if c == 4 then 0x86 else
    if c == 5 then 0x68 else if c == 6 then 0x98 else if c == 7 then 0x16 else
    if c == 8 then 0xd4 else if c == 9 then 0xa4 else
    if c == 10 then 0x5c else if c == 11 then 0xcc else if c == 12 then 0x5d else
    if c == 13 then 0x65 else if c == 14 then 0xb6 else
    0x92
  }

  function InverseSubRow5(c: bv8): bv8 {
    if c == 0 then 0x6c else if c == 1 then 0x70 else if c == 2 then 0x48 else
    if c == 3 then 0x50 else if c == 4 then 0xfd else
    if c == 5 then 0xed else if c == 6 then 0xb9 else if c == 7 then 0xda else
    if c == 8 then 0x5e else if c == 9 then 0x15 else
    if c == 10 then 0x46 else if c == 11 then 0x57 else if c == 12 then 0xa7 else
    if c == 13 then 0x8d else if c == 14 then 0x9d else
    0x84
  }

  function InverseSubRow6(c: bv8): bv8 {
    if c == 0 then 0x90 else if c == 1 then 0xd8 else if c == 2 then 0xab else
    if c == 3 then 0x00 else if c == 4 then 0x8c else
    if c == 5 then 0xbc else if c == 6 then 0xd3 else if c == 7 then 0x0a else
    if c == 8 then 0xf7 else if c == 9 then 0xe4 else
    if c == 10 then 0x58 else if c == 11 then 0x05 else if c == 12 then 0xb8 else
    if c == 13 then 0xb3 else if c == 14 then 0x45 else
    0x06
  }

  function InverseSubRow7(c: bv8): bv8 {
    if c == 0 then 0xd0 else if c == 1 then 0x2c else if c == 2 then 0x1e else
    if c == 3 then 0x8f else if c == 4 then 0xca else
    if c == 5 then 0x3f else if c == 6 then 0x0f else if c == 7 then 0x02 else
    if c == 8 then 0xc1 else if c == 9 then 0xaf else
    if c == 10 then 0xbd else if c == 11 then 0x03 else if c == 12 then 0x01 else
    if c == 13 then 0x13 else if c == 14 then 0x8a else
    0x6b
  }

  function InverseSubRow8(c: bv8): bv8 {
    if c == 0 then 0x3a else if c == 1 then 0x91 else if c == 2 then 0x11 else
    if c == 3 then 0x41 else if c == 4 then 0x4f else
    if c == 5 then 0x67 else if c == 6 then 0xdc else if c == 7 then 0xea else
    if c == 8 then 0x97 else if c == 9 then 0xf2 else
    if c == 10 then 0xcf else if c == 11 then 0xce else if c == 12 then 0xf0 else
    if c == 13 then 0xb4 else if c == 14 then 0xe6 else
    0x73
  }

  function InverseSubRow9(c: bv8): bv8 {
    if c == 0 then 0x96 else if c == 1 then 0xac else if c == 2 then 0x74 else
    if c == 3 then 0x22 else if c == 4 then 0xe7 else
    if c == 5 then 0xad else if c == 6 then 0x35 else if c == 7 then 0x85 else
    if c == 8 then 0xe2 else if c == 9 then 0xf9 else
    if c == 10 then 0x37 else if c == 11 then 0xe8 else if c == 12 then 0x1c else
    if c == 13 then 0x75 else if c == 14 then 0xdf else
    0x6e
  }

  function InverseSubRowA(c: bv8): bv8 {
    if c == 0 then 0x47 else if c == 1 then 0xf1 else if c == 2 then 0x1a else
    if c == 3 then 0x71 else if c == 4 then 0x1d else
    if c == 5 then 0x29 else if c == 6 then 0xc5 else if c == 7 then 0x89 else
    if c == 8 then 0x6f else if c == 9 then 0xb7 else
    if c == 10 then 0x62 else if c == 11 then 0x0e else if c == 12 then 0xaa else
    if c == 13 then 0x18 else if c == 14 then 0xbe else
    0x1b
  }

  function InverseSubRowB(c: bv8): bv8 {
    if c == 0 then 0xfc else if c == 1 then 0x56 else if c == 2 then 0x3e else
    if c == 3 then 0x4b else if c == 4 then 0xc6 else
    if c == 5 then 0xd2 else if c == 6 then 0x79 else if c == 7 then 0x20 else
    if c == 8 then 0x9a else if c == 9 then 0xdb else
    if c == 10 then 0xc0 else if c == 11 then 0xfe else if c == 12 then 0x78 else
    if c == 13 then 0xcd else if c == 14 then 0x5a else
    0xf4
  }

  function InverseSubRowC(c: bv8): bv8 {
    if c == 0 then 0x1f else if c == 1 then 0xdd else if c == 2 then 0xa8 else
    if c == 3 then 0x33 else if c == 4 then 0x88 else
    if c == 5 then 0x07 else if c == 6 then 0xc7 else if c == 7 then 0x31 else
    if c == 8 then 0xb1 else if c == 9 then 0x12 else
    if c == 10 then 0x10 else if c == 11 then 0x59 else if c == 12 then 0x27 else
    if c == 13 then 0x80 else if c == 14 then 0xec else
    0x5f
  }

  function InverseSubRowD(c: bv8): bv8 {
    if c == 0 then 0x60 else if c == 1 then 0x51 else if c == 2 then 0x7f else
    if c == 3 then 0xa9 else if c == 4 then 0x19 else
    if c == 5 then 0xb5 else if c == 6 then 0x4a else if c == 7 then 0x0d else
    if c == 8 then 0x2d else if c == 9 then 0xe5 else
    if c == 10 then 0x7a else if c == 11 then 0x9f else if c == 12 then 0x93 else
    if c == 13 then 0xc9 else if c == 14 then 0x9c else
    0xef
  }

  function InverseSubRowE(c: bv8): bv8 {
    if c == 0 then 0xa0 else if c == 1 then 0xe0 else if c == 2 then 0x3b else
    if c == 3 then 0x4d else if c == 4 then 0xae else
    if c == 5 then 0x2a else if c == 6 then 0xf5 else if c == 7 then 0xb0 else
    if c == 8 then 0xc8 else if c == 9 then 0xeb else
    if c == 10 then 0xbb else if c == 11 then 0x3c else if c == 12 then 0x83 else
    if c == 13 then 0x53 else if c == 14 then 0x99 else
    0x61
  }

  function InverseSubRowF(c: bv8): bv8 {
    if c == 0 then 0x17 else if c == 1 then 0x2b else if c == 2 then 0x04 else
    if c == 3 then 0x7e else if c == 4 then 0xba else
    if c == 5 then 0x77 else if c == 6 then 0xd6 else if c == 7 then 0x26 else
    if c == 8 then 0xe1 else if c == 9 then 0x69 else
    if c == 10 then 0x14 else if c == 11 then 0x63 else if c == 12 then 0x55 else
    if c == 13 then 0x21 else if c == 14 then 0x0c else
    0x7d
  }

  /** The table that undoes it. */
  function InverseSub(x: bv8): bv8 {
    var r, c := x / 16, x % 16;
    if r == 0 then InverseSubRow0(c) else if r == 1 then InverseSubRow1(c) else
    if r == 2 then InverseSubRow2(c) else if r == 3 then InverseSubRow3(c) else
    if r == 4 then InverseSubRow4(c) else if r == 5 then InverseSubRow5(c) else
    if r == 6 then InverseSubRow6(c) else if r == 7 then InverseSubRow7(c) else
    if r == 8 then InverseSubRow8(c) else if r == 9 then InverseSubRow9(c) else
    if r == 10 then InverseSubRowA(c) else if r == 11 then InverseSubRowB(c) else
    if r == 12 then InverseSubRowC(c) else if r == 13 then InverseSubRowD(c) else if r == 14 then InverseSubRowE(c) else
    InverseSubRowF(c)
  }

  /** The table is a permutation of the bytes. */
  lemma {:induction false} SubUndone(x: bv8)
    ensures InverseSub(Sub(x)) == x
  {
  }

  lemma {:induction false} SubRedone(x: bv8)
    ensures Sub(InverseSub(x)) == x
  {
  }
}
