/** Operations carried out twice, each time with the result of the time before: exactly when the second time
    changes nothing.  This is what writing a two-operand instruction twice amounts to, and it is told apart by
    operation: adding nothing, a fixed point of the subtraction, a shift that leaves nothing, a rotation that
    leaves everything. */
module RepeatedOperations {
  import opened Arithmetic
  import opened Thumb
  import opened Replayable
  import opened Residues
  import ExclusiveOr

  /** When carrying out the operation again, on what it left, leaves it the same, flags included if they are
      set; for operations that do not absorb their second operand. */
  predicate Unmoved(op: AluOp, s: bool, x: Word, y: Shift, f: Flags) {
    var first := Compute(op, x, y, f);
    match op
    case Add => y.n == 0
    case Sub => y.n == 0
    case Eor => y.n == 0
    case Adc => (y.n + Bit(f.c)) % WORD_LIMIT == 0
    case Rsb => (2 * x - y.n) % WORD_LIMIT == 0
    case Mul => (x * y.n * y.n - x * y.n) % WORD_LIMIT == 0
    case Lsl => y.n % 256 == 0 || (first.n == 0 && (s ==> !first.flags.c))
    case Lsr => y.n % 256 == 0 || (first.n == 0 && (s ==> !first.flags.c))
    case Ror => first.n == x
    case _ => true
  }

  predicate Counted(op: AluOp) {
    !Absorbs(op) && op != Sbc && op != Asr
  }

  /** The state of affairs after the first time, and after the second. */
  predicate Settled(op: AluOp, s: bool, x: Word, y: Shift, y': Shift, f: Flags) {
    var first := Compute(op, x, y, f);
    var second := Compute(op, first.n, y', if s then first.flags else f);
    second.n == first.n && (s ==> second.flags == first.flags)
  }

  lemma {:induction false} AddedAgain(s: bool, x: Word, y: Shift, y': Shift, f: Flags)
    requires y'.n == y.n
    ensures Settled(Add, s, x, y, y', f) <==> y.n == 0
  {
    hide Signed, FlagsOf;
    SumTwice(x, y.n);
  }

  lemma {:induction false} SumTwice(x: Word, y: Word)
    ensures var a := AddWithCarry(x, y, false); AddWithCarry(a.result, y, false).result == a.result <==> y == 0
    ensures y == 0 ==> AddWithCarry(x, y, false).result == x
  {
    hide Signed;
  }

  lemma {:induction false} SubtractedAgain(s: bool, x: Word, y: Shift, y': Shift, f: Flags)
    requires y'.n == y.n
    ensures Settled(Sub, s, x, y, y', f) <==> y.n == 0
  {
    hide Signed, FlagsOf;
    DifferenceTwice(x, y.n);
  }

  lemma {:induction false} DifferenceTwice(x: Word, y: Word)
    ensures var a := AddWithCarry(x, Complement(y), true);
      AddWithCarry(a.result, Complement(y), true).result == a.result <==> y == 0
    ensures y == 0 ==> AddWithCarry(x, Complement(y), true).result == x
  {
    hide Signed;
  }

  lemma {:induction false} CarriedAgain(x: Word, y: Shift, y': Shift, f: Flags)
    requires y'.n == y.n
    ensures Settled(Adc, false, x, y, y', f) <==> (y.n + Bit(f.c)) % WORD_LIMIT == 0
  {
    hide Signed, FlagsOf, AddWithCarry;
    CarriedTwice(x, y.n, f.c);
  }

  lemma {:induction false} CarriedTwice(x: Word, y: Word, c: bool)
    ensures var a := AddWithCarry(x, y, c);
      AddWithCarry(a.result, y, c).result == a.result <==> (y + Bit(c)) % WORD_LIMIT == 0
  {
    hide Signed;
    var d := y + Bit(c);
    MovedBy(x, d);
  }

  /** Moving on by an amount, modulo the word size, moves nowhere only when the amount is none. */
  lemma {:induction false} MovedBy(x: Word, d: nat)
    requires d <= WORD_LIMIT
    ensures ((x + d) % WORD_LIMIT + d) % WORD_LIMIT == (x + d) % WORD_LIMIT <==> d % WORD_LIMIT == 0
  {
  }

  lemma {:induction false} ReversedAgain(s: bool, x: Word, y: Shift, y': Shift, f: Flags)
    requires y'.n == y.n
    ensures Settled(Rsb, s, x, y, y', f) <==> (2 * x - y.n) % WORD_LIMIT == 0
  {
    hide Signed, FlagsOf, AddWithCarry;
    var first := AddWithCarry(y.n, Complement(x), true).result;
    Difference(y.n, x);
    Difference(y.n, first);
    ReversedTwice(x, y.n, first);
    assert first == x ==> AddWithCarry(y.n, Complement(first), true) == AddWithCarry(y.n, Complement(x), true);
  }

  lemma {:induction false} Difference(x: Word, y: Word)
    ensures AddWithCarry(x, Complement(y), true).result == if x >= y then x - y else x - y + WORD_LIMIT
  {
    hide Signed;
  }

  lemma {:induction false} ReversedTwice(x: Word, y: Word, first: Word)
    requires first == if y >= x then y - x else y - x + WORD_LIMIT
    ensures (if y >= first then y - first else y - first + WORD_LIMIT) == x
    ensures first == x <==> (2 * x - y) % WORD_LIMIT == 0
  {
  }

  lemma {:induction false} MultipliedAgain(s: bool, x: Word, y: Shift, y': Shift, f: Flags)
    requires y'.n == y.n
    ensures Settled(Mul, s, x, y, y', f) <==> (x * y.n * y.n - x * y.n) % WORD_LIMIT == 0
  {
    var p := x * y.n;
    var first := p % WORD_LIMIT;
    var q := p / WORD_LIMIT;
    assert p == WORD_LIMIT * q + first;
    Distributes(WORD_LIMIT * q, first, y.n);
    Gathers(WORD_LIMIT, q, y.n);
    SameResidue(p * y.n, first * y.n, q * y.n);
    EqualResidues(p * y.n, p);
  }

  lemma {:induction false} ExcludedAgain(s: bool, x: Word, y: Shift, y': Shift, f: Flags)
    requires y'.n == y.n && (s ==> y' == y)
    ensures Settled(Eor, s, x, y, y', f) <==> y.n == 0
  {
    hide Bitwise;
    var first := BitwiseWord(BitXor, x, y.n);
    ExclusiveOr.XorSolves(first, y.n, first);
    ExclusiveOr.XorLaws(first, 0, 0);
  }

  // ----- Shifts -----

  lemma {:induction false} LeftAgain(s: bool, x: Word, y: Shift, y': Shift, f: Flags)
    requires y'.n == y.n
    ensures Settled(Lsl, s, x, y, y', f) <==>
      y.n % 256 == 0 || (Compute(Lsl, x, y, f).n == 0 && (s ==> !Compute(Lsl, x, y, f).flags.c))
  {
    hide Pow2;
    var m := y.n % 256;
    var first := Compute(Lsl, x, y, f).n;
    if 0 < m <= 32 {
      NothingShifted(m);
      if first * Pow2(m) % WORD_LIMIT == first {
        LeftFixed(first, m);
      }
    }
  }

  lemma {:induction false} NothingShifted(m: nat)
    ensures 0 * Pow2(m) == 0 && 0 / Pow2(m) == 0
  {
  }

  /** Only zero stays the same when it is shifted to the left. */
  lemma {:induction false} LeftFixed(r: Word, m: nat)
    requires 0 < m && r * Pow2(m) % WORD_LIMIT == r
    ensures r == 0
  {
    hide Pow2;
    LeftRepeated(r, m, 32);
    var j := 32 * m - 32;
    Pow2Sum(j, 32);
    Pow2Word();
    Gathers(r, Pow2(j), WORD_LIMIT);
    WholeWords(r * Pow2(j));
  }

  lemma {:induction false} LeftRepeated(r: Word, m: nat, k: nat)
    requires r * Pow2(m) % WORD_LIMIT == r
    ensures r * Pow2(k * m) % WORD_LIMIT == r
    decreases k
  {
    hide Pow2;
    if k == 0 {
      assert Pow2(0) == 1 by { NoPower(); }
    } else {
      LeftRepeated(r, m, k - 1);
      var a := r * Pow2((k - 1) * m);
      var q := a / WORD_LIMIT;
      assert a == WORD_LIMIT * q + r;
      assert k * m == (k - 1) * m + m;
      Pow2Sum((k - 1) * m, m);
      Gathers(r, Pow2((k - 1) * m), Pow2(m));
      Distributes(WORD_LIMIT * q, r, Pow2(m));
      Gathers(WORD_LIMIT, q, Pow2(m));
      SameResidue(a * Pow2(m), r * Pow2(m), q * Pow2(m));
    }
  }

  lemma {:induction false} NoPower()
    ensures Pow2(0) == 1
  {
  }

  lemma {:induction false} RightAgain(s: bool, x: Word, y: Shift, y': Shift, f: Flags)
    requires y'.n == y.n
    ensures Settled(Lsr, s, x, y, y', f) <==>
      y.n % 256 == 0 || (Compute(Lsr, x, y, f).n == 0 && (s ==> !Compute(Lsr, x, y, f).flags.c))
  {
    hide Pow2, ShiftWord;
    var m := y.n % 256;
    RightTwice(x, m, f.c, if s then Compute(Lsr, x, y, f).flags.c else f.c);
  }

  lemma {:induction false} RightTwice(x: Word, m: nat, c: bool, d: bool)
    ensures var a := ShiftWord(ShiftRight, x, m, c);
      var b := ShiftWord(ShiftRight, a.n, m, d);
      && (m == 0 ==> a == Shift(x, c) && b == Shift(a.n, d))
      && (m > 0 ==> (b.n == a.n <==> a.n == 0) && (a.n == 0 ==> b == Shift(0, false)))
  {
    hide Pow2;
    if 0 < m <= 32 {
      NothingShifted(m);
      NothingShifted(m - 1);
      Halving(m);
      Quotient(x, Pow2(m));
      Shrinks(x / Pow2(m), Pow2(m));
      Quotient(x / Pow2(m), Pow2(m));
    }
  }

  lemma {:induction false} Halving(m: nat)
    requires m > 0
    ensures Pow2(m) >= 2
  {
  }

  lemma {:induction false} Shrinks(r: nat, p: nat)
    requires p >= 2
    ensures r > 0 ==> r / p < r
    ensures 0 <= r / p <= r
  {
    assert r == p * (r / p) + r % p;
    if r / p >= r && r > 0 {
      Grows(p, r / p);
    }
  }

  lemma {:induction false} Grows(p: nat, q: nat)
    requires p >= 2 && q > 0
    ensures p * q > q
  {
  }

  lemma {:induction false} Quotient(x: Word, p: nat)
    requires p >= 1
    ensures 0 <= x / p < WORD_LIMIT && x / p % WORD_LIMIT == x / p
  {
    assert x == p * (x / p) + x % p;
    if x / p > x {
      Grows2(p, x / p);
    }
  }

  lemma {:induction false} Grows2(p: nat, q: nat)
    requires p >= 1
    ensures p * q >= q
  {
  }

  // ----- Rotations -----

  function Turned(x: Word, m: nat): Word
    requires m < 32
  {
    (x / Pow2(m) + x * Pow2(32 - m)) % WORD_LIMIT
  }

  lemma {:induction false} HighBelow(hi: nat, lo: nat, p: nat, q: nat)
    requires hi * p + lo < p * q
    ensures hi < q
  {
    if hi >= q {
      AtLeast(p, hi, q);
    }
  }

  lemma {:induction false} TurnedSum(x: nat, hi: nat, lo: nat, p: nat, q: nat)
    requires x == hi * p + lo && p * q == WORD_LIMIT && hi < q && lo < p
    ensures (hi + x * q) % WORD_LIMIT == hi + lo * q
  {
    Distributes(hi * p, lo, q);
    Gathers(hi, p, q);
    AtMost(lo, p, q);
    ResidueIs(hi + x * q, hi, hi + lo * q);
  }

  /** A rotation puts the low part above the high part. */
  lemma {:induction false} TurnedParts(x: Word, m: nat)
    requires m < 32
    ensures var hi, lo := x / Pow2(m), x % Pow2(m);
      0 <= hi < Pow2(32 - m) && 0 <= lo < Pow2(m) && x == hi * Pow2(m) + lo && Turned(x, m) == hi + lo * Pow2(32 - m)
  {
    hide Pow2;
    var p, q := Pow2(m), Pow2(32 - m);
    Pow2Sum(m, 32 - m);
    Pow2Word();
    Divided(x, p);
    HighBelow(x / p, x % p, p, q);
    TurnedSum(x, x / p, x % p, p, q);
  }

  /** Different words rotate to different words. */
  lemma {:induction false} RotationInjective(x: Word, z: Word, m: nat)
    requires m < 32 && Turned(x, m) == Turned(z, m)
    ensures x == z
  {
    hide Pow2, Turned;
    TurnedParts(x, m);
    TurnedParts(z, m);
    Parts(x / Pow2(m), x % Pow2(m), z / Pow2(m), z % Pow2(m), Pow2(32 - m));
  }

  lemma {:induction false} Parts(a: nat, b: nat, c: nat, d: nat, q: nat)
    requires a < q && c < q && a + b * q == c + d * q
    ensures a == c && b == d
  {
    if b > d {
      MoreOf(q, b, d);
    }
    if d > b {
      MoreOf(q, d, b);
    }
  }

  lemma {:induction false} MoreOf(q: nat, b: nat, d: nat)
    requires b > d
    ensures b * q >= d * q + q
  {
    AtLeast(q, b, d + 1);
  }

  lemma {:induction false} RotatedAgain(x: Word, y: Shift, y': Shift, f: Flags)
    requires y'.n == y.n
    ensures Settled(Ror, false, x, y, y', f) <==> Compute(Ror, x, y, f).n == x
  {
    hide Pow2;
    var amount := y.n % 256;
    var first := Compute(Ror, x, y, f).n;
    if amount > 0 {
      var m := amount % 32;
      assert first == Turned(x, m) && Compute(Ror, first, y', f).n == Turned(first, m);
      if Turned(first, m) == first {
        RotationInjective(first, x, m);
      }
    }
  }

  /** All of them: the second time changes nothing exactly under the condition of the operation. */
  lemma {:induction false} SettledIff(op: AluOp, s: bool, x: Word, y: Shift, y': Shift, f: Flags)
    requires Counted(op) && !(s && (op == Adc || op == Ror))
    requires y'.n == y.n && (s ==> y'.carry == y.carry || op != Eor)
    ensures Settled(op, s, x, y, y', f) <==> Unmoved(op, s, x, y, f)
  {
    hide Settled;
    match op
    case Add => AddedAgain(s, x, y, y', f);
    case Sub => SubtractedAgain(s, x, y, y', f);
    case Adc => CarriedAgain(x, y, y', f);
    case Rsb => ReversedAgain(s, x, y, y', f);
    case Mul => MultipliedAgain(s, x, y, y', f);
    case Eor => ExcludedAgain(s, x, y, y', f);
    case Lsl => LeftAgain(s, x, y, y', f);
    case Lsr => RightAgain(s, x, y, y', f);
    case Ror => RotatedAgain(x, y, y', f);
    case _ => assert false;
  }
}
