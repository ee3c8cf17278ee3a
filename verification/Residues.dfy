/** Products, quotients and remainders: the arithmetic that is not linear, one small fact at a time.  The facts
    about words, about digits and about shifted numbers are put together from these, so that no other proof
    needs to multiply or divide two unknown numbers on its own; each fact is stated for the numbers at
    hand.  A remainder is found by giving the quotient that belongs to it. */
module Residues {
  import opened Processor

  lemma {:induction false} Distributes(a: int, b: int, c: int)
    ensures (a + b) * c == a * c + b * c
  {
  }

  lemma {:induction false} Gathers(a: int, b: int, c: int)
    ensures a * b * c == a * (b * c)
  {
  }

  lemma {:induction false} ProductPositive(p: nat, q: nat)
    requires p > 0 && q > 0
    ensures p * q > 0
  {
  }

  lemma {:induction false} AtLeast(p: nat, a: nat, b: nat)
    requires a >= b
    ensures p * a >= p * b
  {
  }

  lemma {:induction false} AtMost(lo: nat, p: nat, q: nat)
    requires lo < p
    ensures lo * q <= p * q - q
  {
    assert p * q - q == (p - 1) * q;
    AtLeast(q, p - 1, lo);
  }

  lemma {:induction false} MultipleOf(e: int, m: nat)
    ensures (e >= 1 ==> e * m >= m) && (e <= -1 ==> e * m + m <= 0)
  {
    if e >= 1 {
      AtLeast(m, e, 1);
    } else if e <= -1 {
      AtLeast(m, -e, 1);
      assert e * m == -(m * -e);
    }
  }

  /** A number is its quotient times the divisor, and its remainder. */
  lemma {:induction false} Divided(a: int, m: nat)
    requires m > 0
    ensures a == a / m * m + a % m && 0 <= a % m < m
    ensures a >= 0 ==> a / m >= 0
  {
    if a >= 0 && a / m < 0 {
      MultipleOf(a / m, m);
    }
  }

  /** Only one quotient and one remainder are possible. */
  lemma {:induction false} RemainderIs(a: int, m: nat, k: int, r: nat)
    requires m > 0 && a == k * m + r && r < m
    ensures a % m == r && a / m == k
  {
    Divided(a, m);
    var e := a / m - k;
    Distributes(a / m, -k, m);
    assert e * m == r - a % m;
    MultipleOf(e, m);
  }

  lemma {:induction false} QuotientsTwice(a: nat, p: nat, q: nat)
    requires p > 0 && q > 0
    ensures 0 <= a / p && p * q > 0 && a / p / q == a / (p * q)
  {
    ProductPositive(p, q);
    Divided(a, p);
    Divided(a / p, q);
    var r, v, w := a % p, a / p / q, a / p % q;
    Distributes(v * q, w, p);
    Gathers(v, q, p);
    AtMost(w, q, p);
    assert a == v * (p * q) + (w * p + r) by { assert q * p == p * q; }
    RemainderIs(a, p * q, v, w * p + r);
  }

  // ----- Modulo 2^32 -----

  lemma {:induction false} ResidueIs(a: int, k: int, r: nat)
    requires a == WORD_LIMIT * k + r && r < WORD_LIMIT
    ensures a % WORD_LIMIT == r
  {
  }

  lemma {:induction false} SameResidue(a: int, b: int, k: int)
    requires a == WORD_LIMIT * k + b
    ensures a % WORD_LIMIT == b % WORD_LIMIT
  {
    var j := b / WORD_LIMIT;
    ResidueIs(b, j, b - WORD_LIMIT * j);
    ResidueIs(a, k + j, b - WORD_LIMIT * j);
  }

  lemma {:induction false} EqualResidues(a: int, b: int)
    ensures a % WORD_LIMIT == b % WORD_LIMIT <==> (a - b) % WORD_LIMIT == 0
  {
    var j, k := a / WORD_LIMIT, b / WORD_LIMIT;
    var r := a % WORD_LIMIT - b % WORD_LIMIT;
    assert a - b == WORD_LIMIT * (j - k) + r;
    if r >= 0 {
      ResidueIs(a - b, j - k, r);
    } else {
      ResidueIs(a - b, j - k - 1, r + WORD_LIMIT);
    }
  }

  lemma {:induction false} WholeWords(a: nat)
    ensures a * WORD_LIMIT % WORD_LIMIT == 0
  {
    ResidueIs(a * WORD_LIMIT, a, 0);
  }

  /** Numbers less than 2^32 apart stay apart when the same is added to both. */
  lemma {:induction false} ShiftedApart(a: int, b: int, d: int)
    requires -1 * WORD_LIMIT < a - b < WORD_LIMIT
    ensures (a + d) % WORD_LIMIT == (b + d) % WORD_LIMIT <==> a == b
  {
    EqualResidues(a + d, b + d);
    if 0 < a - b {
      ResidueIs(a - b, 0, a - b);
    } else if a - b < 0 {
      ResidueIs(a - b, -1, a - b + WORD_LIMIT);
    }
  }
}
