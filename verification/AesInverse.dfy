/** What the substitution table holds: for every byte the affine map of section 5.1.1 of FIPS 197 applied to its
    inverse in the field, zero counting as its own inverse.  The inverse is had from the table by taking the affine
    map back; that it is one is checked row by row. */
module AesInverse {
  import opened AesTable
  import opened Aes

  /** The bits turned left. */
  function Turned1(y: bv8): bv8 {
    (y << 1) | (y >> 7)
  }

  function Turned3(y: bv8): bv8 {
    (y << 3) | (y >> 5)
  }

  /** Bit i of the result is the sum of the bits i, i + 4, i + 5, i + 6 and i + 7 of y and of bit i of 0x63. */
  function Affine(y: bv8): bv8 {
    y ^ Turned1(y) ^ ((y << 2) | (y >> 6)) ^ Turned3(y) ^ ((y << 4) | (y >> 4)) ^ 0x63
  }

  function AffineBack(z: bv8): bv8 {
    Turned1(z) ^ Turned3(z) ^ ((z << 6) | (z >> 2)) ^ 0x05
  }

  lemma {:induction false} AffineUndone(z: bv8)
    ensures Affine(AffineBack(z)) == z
  {
  }

  lemma {:induction false} Row0(c: bv8)
    requires c < 16
    ensures (c != 0 ==> Times(c, AffineBack(SubRow0(c))) == 1) && AffineBack(SubRow0(0)) == 0
  {
    if c < 4 {
    } else if c < 8 {
    } else if c < 12 {
    }
  }

  lemma {:induction false} Row1(c: bv8)
    requires c < 16
    ensures Times(0x10 ^ c, AffineBack(SubRow1(c))) == 1
  {
    if c < 4 {
    } else if c < 8 {
    } else if c < 12 {
    }
  }

  lemma {:induction false} Row2(c: bv8)
    requires c < 16
    ensures Times(0x20 ^ c, AffineBack(SubRow2(c))) == 1
  {
    if c < 4 {
    } else if c < 8 {
    } else if c < 12 {
    }
  }

  lemma {:induction false} Row3(c: bv8)
    requires c < 16
    ensures Times(0x30 ^ c, AffineBack(SubRow3(c))) == 1
  {
    if c < 4 {
    } else if c < 8 {
    } else if c < 12 {
    }
  }

  lemma {:induction false} Row4(c: bv8)
    requires c < 16
    ensures Times(0x40 ^ c, AffineBack(SubRow4(c))) == 1
  {
    if c < 4 {
    } else if c < 8 {
    } else if c < 12 {
    }
  }

  lemma {:induction false} Row5(c: bv8)
    requires c < 16
    ensures Times(0x50 ^ c, AffineBack(SubRow5(c))) == 1
  {
    if c < 4 {
    } else if c < 8 {
    } else if c < 12 {
    }
  }

  lemma {:induction false} Row6(c: bv8)
    requires c < 16
    ensures Times(0x60 ^ c, AffineBack(SubRow6(c))) == 1
  {
    if c < 4 {
    } else if c < 8 {
    } else if c < 12 {
    }
  }

  lemma {:induction false} Row7(c: bv8)
    requires c < 16
    ensures Times(0x70 ^ c, AffineBack(SubRow7(c))) == 1
  {
    if c < 4 {
    } else if c < 8 {
    } else if c < 12 {
    }
  }

  lemma {:induction false} Row8(c: bv8)
    requires c < 16
    ensures Times(0x80 ^ c, AffineBack(SubRow8(c))) == 1
  {
    if c < 4 {
    } else if c < 8 {
    } else if c < 12 {
    }
  }

  lemma {:induction false} Row9(c: bv8)
    requires c < 16
    ensures Times(0x90 ^ c, AffineBack(SubRow9(c))) == 1
  {
    if c < 4 {
    } else if c < 8 {
    } else if c < 12 {
    }
  }

  lemma {:induction false} RowA(c: bv8)
    requires c < 16
    ensures Times(0xa0 ^ c, AffineBack(SubRowA(c))) == 1
  {
    if c < 4 {
    } else if c < 8 {
    } else if c < 12 {
    }
  }

  lemma {:induction false} RowB(c: bv8)
    requires c < 16
    ensures Times(0xb0 ^ c, AffineBack(SubRowB(c))) == 1
  {
    if c < 4 {
    } else if c < 8 {
    } else if c < 12 {
    }
  }

  lemma {:induction false} RowC(c: bv8)
    requires c < 16
    ensures Times(0xc0 ^ c, AffineBack(SubRowC(c))) == 1
  {
    if c < 4 {
    } else if c < 8 {
    } else if c < 12 {
    }
  }

  lemma {:induction false} RowD(c: bv8)
    requires c < 16
    ensures Times(0xd0 ^ c, AffineBack(SubRowD(c))) == 1
  {
    if c < 4 {
    } else if c < 8 {
    } else if c < 12 {
    }
  }

  lemma {:induction false} RowE(c: bv8)
    requires c < 16
    ensures Times(0xe0 ^ c, AffineBack(SubRowE(c))) == 1
  {
    if c < 4 {
    } else if c < 8 {
    } else if c < 12 {
    }
  }

  lemma {:induction false} RowF(c: bv8)
    requires c < 16
    ensures Times(0xf0 ^ c, AffineBack(SubRowF(c))) == 1
  {
    if c < 4 {
    } else if c < 8 {
    } else if c < 12 {
    }
  }

  lemma {:induction false} Halves(x: bv8)
    ensures x % 16 < 16 && x / 16 < 16 && x == (16 * (x / 16)) ^ (x % 16)
  {
  }

  /** The table looks up the affine image of the inverse. */
  lemma {:induction false} SubIsAffineInverse(x: bv8) returns (y: bv8)
    ensures if x == 0 then y == 0 else Times(x, y) == 1
    ensures Sub(x) == Affine(y)
  {
    hide Times, Affine, AffineBack, SubRow0, SubRow1, SubRow2, SubRow3, SubRow4, SubRow5, SubRow6, SubRow7, SubRow8,
      SubRow9, SubRowA, SubRowB, SubRowC, SubRowD, SubRowE, SubRowF;
    Halves(x);
    y := AffineBack(Sub(x));
    AffineUndone(Sub(x));
    var r, c := x / 16, x % 16;
    if r == 0 {
      Row0(c);
    } else if r == 1 {
      Row1(c);
    } else if r == 2 {
      Row2(c);
    } else if r == 3 {
      Row3(c);
    } else if r == 4 {
      Row4(c);
    } else if r == 5 {
      Row5(c);
    } else if r == 6 {
      Row6(c);
    } else if r == 7 {
      Row7(c);
    } else if r == 8 {
      Row8(c);
    } else if r == 9 {
      Row9(c);
    } else if r == 10 {
      RowA(c);
    } else if r == 11 {
      RowB(c);
    } else if r == 12 {
      RowC(c);
    } else if r == 13 {
      RowD(c);
    } else if r == 14 {
      RowE(c);
    } else if r == 15 {
      RowF(c);
    }
  }
}
