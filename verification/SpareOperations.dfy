/** Operations carried out twice with another register in place of their first source: exactly when that comes to
    what carrying them out once does.  The condition is told apart by operation and looks at the operands before
    anything is executed: for a sum the other register must hold what the operation undoes, for a bitwise
    operation it must differ only where that does not matter, for products and shifts it is a congruence. */
module SpareOperations {
  import opened Arithmetic
  import opened Thumb
  import opened Replayable
  import opened RepeatedOperations
  import opened Residues
  import ExclusiveOr

  /** When carrying out the operation twice on the number t comes to what carrying it out once on x does, flags
      included if they are set: told apart by operation, from the operands as they are before. */
  predicate SpareSuits(op: AluOp, s: bool, x: Word, t: Word, y: Shift, f: Flags) {
    var m := y.n % 256;
    match op
    case And => Compute(op, t, y, f).n == Compute(op, x, y, f).n
    case Orr => Compute(op, t, y, f).n == Compute(op, x, y, f).n
    case Bic => Compute(op, t, y, f).n == Compute(op, x, y, f).n
    case Mul => (t * y.n * y.n - x * y.n) % WORD_LIMIT == 0
    case Lsl =>
      if m == 0 then t == x
      else if s then m > 32 || (t * Pow2(m) - x) % Pow2(33 - m) == 0
      else m >= 32 || (t * Pow2(m) - x) % Pow2(32 - m) == 0
    case Lsr =>
      if m == 0 then t == x
      else if s then m > 32 || t / Pow2(2 * m - 1) == x / Pow2(m - 1)
      else m >= 32 || t / Pow2(2 * m) == x / Pow2(m)
    case _ => Compute(op, t, y, f).n == x
  }

  /** The state of affairs after carrying out the operation twice on t, and once on x. */
  predicate SpareSettled(op: AluOp, s: bool, x: Word, t: Word, y: Shift, y': Shift, f: Flags) {
    var first := Compute(op, t, y, f);
    var second := Compute(op, first.n, y', if s then first.flags else f);
    var once := Compute(op, x, y, f);
    second.n == once.n && (s ==> second.flags == once.flags)
  }

  /** These operations take different words to different words. */
  predicate Injective(op: AluOp) {
    op == Add || op == Adc || op == Sub || op == Rsb || op == Eor || op == Ror
  }

  predicate Bits(op: AluOp) {
    Absorbs(op) || op == Eor
  }

  lemma {:induction false} SumResidue(x: Word, y: Word, c: bool)
    ensures AddWithCarry(x, y, c).result == (x + (y + Bit(c))) % WORD_LIMIT
  {
    hide Signed;
    assert Bit(c) + x + y == x + (y + Bit(c));
  }

  lemma {:induction false} InjectiveSum(x: Word, z: Word, y: Word, c: bool)
    ensures AddWithCarry(x, y, c).result == AddWithCarry(z, y, c).result <==> x == z
    ensures AddWithCarry(y, Complement(x), true).result == AddWithCarry(y, Complement(z), true).result <==> x == z
  {
    hide AddWithCarry;
    SumResidue(x, y, c);
    SumResidue(z, y, c);
    ShiftedApart(x, z, y + Bit(c));
    SumResidue(y, Complement(x), true);
    SumResidue(y, Complement(z), true);
    assert y + (Complement(x) + 1) == Complement(x) + (y + 1) && y + (Complement(z) + 1) == Complement(z) + (y + 1);
    ShiftedApart(Complement(x), Complement(z), y + 1);
  }

  lemma {:induction false} InjectiveXor(x: Word, z: Word, y: Word)
    ensures BitwiseWord(BitXor, x, y) == BitwiseWord(BitXor, z, y) <==> x == z
  {
    hide BitwiseWord;
    var w := ExclusiveOr.Xor(x, y);
    ExclusiveOr.XorLaws(x, y, 0);
    ExclusiveOr.XorLaws(z, y, 0);
    ExclusiveOr.XorSolves(y, x, w);
    ExclusiveOr.XorSolves(y, z, w);
  }

  lemma {:induction false} InjectiveRotation(x: Word, z: Word, y: Shift, f: Flags)
    ensures Compute(Ror, x, y, f).n == Compute(Ror, z, y, f).n <==> x == z
  {
    hide Pow2;
    var m := y.n % 256 % 32;
    if y.n % 256 > 0 && Turned(x, m) == Turned(z, m) {
      RotationInjective(x, z, m);
    }
  }

  lemma {:induction false} Injects(op: AluOp, x: Word, z: Word, y: Shift, f: Flags)
    requires Injective(op)
    ensures Compute(op, x, y, f).n == Compute(op, z, y, f).n <==> x == z
  {
    hide AddWithCarry, FlagsOf, BitwiseWord;
    InjectiveSum(x, z, y.n, if op == Adc then f.c else false);
    InjectiveSum(x, z, Complement(y.n), true);
    InjectiveSum(x, z, y.n, false);
    InjectiveXor(x, z, y.n);
    InjectiveRotation(x, z, y, f);
  }

  /** The result depends on the number of the second operand only, unless the carry is read. */
  lemma {:induction false} NumberOnly(op: AluOp, x: Word, y: Shift, y': Shift, f: Flags, g: Flags)
    requires y'.n == y.n && (op == Adc || op == Sbc ==> g.c == f.c)
    ensures Compute(op, x, y', g).n == Compute(op, x, y, f).n
    ensures op == Add || op == Sub || op == Rsb ==> Compute(op, x, y', g) == Compute(op, x, y, f)
    ensures Bits(op) && y' == y && g.v == f.v ==> Compute(op, x, y', g) == Compute(op, x, y, f)
  {
    hide AddWithCarry, FlagsOf, BitwiseWord, Pow2;
  }

  lemma {:induction false} OverflowKept(op: AluOp, x: Word, y: Shift, f: Flags)
    requires Bits(op)
    ensures Compute(op, x, y, f).flags.v == f.v
  {
    hide BitwiseWord;
  }

  lemma {:induction false} SpareInjective(op: AluOp, s: bool, x: Word, t: Word, y: Shift, y': Shift, f: Flags)
    requires Injective(op) && !(s && (op == Adc || op == Ror)) && y'.n == y.n && (s && op == Eor ==> y' == y)
    ensures SpareSettled(op, s, x, t, y, y', f) <==> Compute(op, t, y, f).n == x
  {
    hide Compute;
    var first := Compute(op, t, y, f);
    NumberOnly(op, first.n, y, y', f, if s then first.flags else f);
    Injects(op, first.n, x, y, f);
    if op == Eor {
      OverflowKept(op, t, y, f);
    }
  }

  lemma {:induction false} SpareAbsorbed(op: AluOp, s: bool, x: Word, t: Word, y: Shift, y': Shift, f: Flags)
    requires Absorbs(op) && y'.n == y.n && (s ==> y' == y)
    ensures SpareSettled(op, s, x, t, y, y', f) <==> Compute(op, t, y, f).n == Compute(op, x, y, f).n
  {
    hide Compute;
    var first := Compute(op, t, y, f);
    ComputeAgain(op, t, y, f);
    NumberOnly(op, first.n, y, y', f, if s then first.flags else f);
    SameFlags(op, t, x, y, f);
  }

  lemma {:induction false} SameFlags(op: AluOp, x: Word, z: Word, y: Shift, f: Flags)
    requires Absorbs(op)
    ensures Compute(op, x, y, f).n == Compute(op, z, y, f).n ==> Compute(op, x, y, f) == Compute(op, z, y, f)
  {
    hide BitwiseWord;
  }

  lemma {:induction false} SpareMultiplied(s: bool, x: Word, t: Word, y: Shift, y': Shift, f: Flags)
    requires y'.n == y.n
    ensures SpareSettled(Mul, s, x, t, y, y', f) <==> (t * y.n * y.n - x * y.n) % WORD_LIMIT == 0
  {
    var p := t * y.n;
    var first := p % WORD_LIMIT;
    var q := p / WORD_LIMIT;
    assert p == WORD_LIMIT * q + first;
    Distributes(WORD_LIMIT * q, first, y.n);
    Gathers(WORD_LIMIT, q, y.n);
    SameResidue(p * y.n, first * y.n, q * y.n);
    EqualResidues(p * y.n, x * y.n);
  }

  lemma {:induction false} DividesOut(a: int, p: nat, q: nat)
    requires p > 0 && q > 0
    ensures a * p % (p * q) == 0 <==> a % q == 0
  {
    ProductPositive(p, q);
    var k, r := a / q, a % q;
    assert a == k * q + r;
    Distributes(k * q, r, p);
    assert k * q * p == k * (p * q);
    AtMost(r, q, p);
    assert r * p < p * q;
    RemainderIs(a * p, p * q, k, r * p);
    if r > 0 {
      ProductPositive(r, p);
    }
  }

  lemma {:induction false} Congruent(a: int, b: int, q: nat, k: int)
    requires q > 0 && a - b == q * k
    ensures a % q == b % q
  {
    var r := b % q;
    var j := b / q;
    assert b == j * q + r;
    assert a == (j + k) * q + r;
    RemainderIs(a, q, j + k, r);
  }

  lemma {:induction false} LowAndNext(a: nat)
    ensures a % (2 * WORD_LIMIT) == WORD_LIMIT * (a / WORD_LIMIT % 2) + a % WORD_LIMIT
  {
    var q := a / WORD_LIMIT;
    assert a == WORD_LIMIT * q + a % WORD_LIMIT && q == 2 * (q / 2) + q % 2;
    RemainderIs(a, 2 * WORD_LIMIT, q / 2, WORD_LIMIT * (q % 2) + a % WORD_LIMIT);
  }

  lemma {:induction false} SameRemainder(a: nat, b: nat)
    ensures a % (2 * WORD_LIMIT) == b % (2 * WORD_LIMIT) <==> (a - b) % (2 * WORD_LIMIT) == 0
  {
    var m := 2 * WORD_LIMIT;
    assert a == m * (a / m) + a % m && b == m * (b / m) + b % m;
  }

  lemma {:induction false} BothParts(a: nat, b: nat)
    ensures a % WORD_LIMIT == b % WORD_LIMIT && a / WORD_LIMIT % 2 == b / WORD_LIMIT % 2 <==>
      (a - b) % (2 * WORD_LIMIT) == 0
  {
    LowAndNext(a);
    LowAndNext(b);
    SameRemainder(a, b);
  }

  /** Shifting to the left twice, against shifting once: the bits that are left, and one more if the carry
      counts. */
  lemma {:induction false} LeftSpare(x: Word, t: Word, m: nat)
    requires 0 < m <= 32
    ensures var p := Pow2(m);
      var a, b := t * p % WORD_LIMIT * p, x * p;
      && (m < 32 ==> (a % WORD_LIMIT == b % WORD_LIMIT <==> (t * p - x) % Pow2(32 - m) == 0))
      && (a % WORD_LIMIT == b % WORD_LIMIT && a / WORD_LIMIT % 2 == b / WORD_LIMIT % 2 <==>
            (t * p - x) % Pow2(33 - m) == 0)
  {
    hide Pow2;
    var p := Pow2(m);
    var first, k := t * p % WORD_LIMIT, t * p / WORD_LIMIT;
    var a, b := first * p, x * p;
    assert t * p == WORD_LIMIT * k + first;
    assert a - b == (first - x) * p;
    BothParts(a, b);
    EqualResidues(a, b);
    Reduced(first - x, t * p - x, k, m, 32 - m);
    Reduced(first - x, t * p - x, k, m, 33 - m);
    assert Pow2(33) == 2 * WORD_LIMIT by { OneMore(); }
    Pow2Word();
  }

  lemma {:induction false} OneMore()
    ensures Pow2(33) == 2 * WORD_LIMIT
  {
    Pow2Word();
  }

  lemma {:induction false} Reduced(d: int, e: int, k: int, m: nat, j: nat)
    requires j <= 32 && e == d + WORD_LIMIT * k
    ensures d * Pow2(m) % Pow2(m + j) == 0 <==> e % Pow2(j) == 0
  {
    hide Pow2;
    Pow2Sum(m, j);
    Pow2Sum(j, 32 - j);
    Pow2Word();
    DividesOut(d, Pow2(m), Pow2(j));
    Gathers(Pow2(j), Pow2(32 - j), k);
    Congruent(e, d, Pow2(j), Pow2(32 - j) * k);
  }

  lemma {:induction false} RightSpare(x: Word, t: Word, m: nat)
    requires 0 < m <= 32
    ensures var p := Pow2(m);
      && t / p / p == t / Pow2(2 * m)
      && (t / p / p == x / p && t / p / Pow2(m - 1) % 2 == x / Pow2(m - 1) % 2 <==>
            t / Pow2(2 * m - 1) == x / Pow2(m - 1))
  {
    hide Pow2;
    var p, h := Pow2(m), Pow2(m - 1);
    assert p == h * 2 by { Doubled(m); }
    Pow2Sum(m, m);
    Pow2Sum(m, m - 1);
    QuotientsTwice(t, p, p);
    QuotientsTwice(t, p, h);
    QuotientsTwice(x, h, 2);
    QuotientsTwice(t / p, h, 2);
    assert t / p / p == t / p / h / 2;
  }

  lemma {:induction false} Doubled(m: nat)
    requires m > 0
    ensures Pow2(m) == Pow2(m - 1) * 2
  {
  }

  lemma {:induction false} SpareLeft(s: bool, x: Word, t: Word, y: Shift, y': Shift, f: Flags)
    requires y'.n == y.n
    ensures SpareSettled(Lsl, s, x, t, y, y', f) <==> SpareSuits(Lsl, s, x, t, y, f)
  {
    hide Pow2;
    var m := y.n % 256;
    if 0 < m <= 32 {
      LeftSpare(x, t, m);
      if m == 32 {
        Pow2Word();
        WholeWords(t);
        WholeWords(x);
        WholeWords(t * Pow2(m) % WORD_LIMIT);
      }
    }
  }

  lemma {:induction false} RightShifted(x: Word, m: nat, c: bool)
    requires m > 0
    ensures var r := ShiftWord(ShiftRight, x, m, c);
      if m > 32 then r == Shift(0, false) else r.n == x / Pow2(m) && r.carry == (x / Pow2(m - 1) % 2 == 1)
  {
    hide Pow2;
    Quotient(x, Pow2(m));
  }

  lemma {:induction false} RightNothing(x: Word)
    ensures x / Pow2(32) == 0
  {
    Pow2Word();
  }

  lemma {:induction false} SpareRight(s: bool, x: Word, t: Word, y: Shift, y': Shift, f: Flags)
    requires y'.n == y.n
    ensures SpareSettled(Lsr, s, x, t, y, y', f) <==> SpareSuits(Lsr, s, x, t, y, f)
  {
    hide Pow2, ShiftWord;
    var m := y.n % 256;
    if m == 0 {
      NotShifted(x, f.c);
      NotShifted(t, f.c);
    } else {
      var first := Compute(Lsr, t, y, f);
      var c := if s then first.flags.c else f.c;
      RightShifted(t, m, f.c);
      RightShifted(x, m, f.c);
      RightShifted(first.n, m, c);
      if m <= 32 {
        RightSpare(x, t, m);
      }
      RightNothing(x);
      RightNothing(first.n);
    }
  }

  lemma {:induction false} NotShifted(x: Word, c: bool)
    ensures ShiftWord(ShiftRight, x, 0, c) == Shift(x, c)
  {
  }

  /** All of them. */
  lemma {:induction false} SpareSuitsIff(op: AluOp, s: bool, x: Word, t: Word, y: Shift, y': Shift, f: Flags)
    requires op != Sbc && op != Asr && !(s && (op == Adc || op == Ror))
    requires y'.n == y.n && (s && Bits(op) ==> y' == y)
    ensures SpareSettled(op, s, x, t, y, y', f) <==> SpareSuits(op, s, x, t, y, f)
  {
    hide SpareSettled, Compute;
    if Injective(op) {
      SpareInjective(op, s, x, t, y, y', f);
    } else {
      match op
      case Mul => SpareMultiplied(s, x, t, y, y', f);
      case Lsl => SpareLeft(s, x, t, y, y', f);
      case Lsr => SpareRight(s, x, t, y, y', f);
      case _ => SpareAbsorbed(op, s, x, t, y, y', f);
    }
  }

  // ----- Bit fields -----

  /** The words have the same bits below `lsb` and from the end of the field on. */
  predicate AgreeOutside(a: nat, b: nat, lsb: nat, width: nat) {
    a % Pow2(lsb) == b % Pow2(lsb) && a / Pow2(lsb + width) == b / Pow2(lsb + width)
  }

  lemma {:induction false} LowStep(a: nat, p: nat)
    requires p > 0
    ensures a % (2 * p) == a % 2 + 2 * (a / 2 % p)
  {
    var h := a / 2;
    var q, r := h / p, h % p;
    assert h == q * p + r && a == 2 * h + a % 2;
    assert a == q * (2 * p) + (a % 2 + 2 * r);
    RemainderIs(a, 2 * p, q, a % 2 + 2 * r);
  }

  lemma {:induction false} BitsApart(a: nat, b: nat, i: nat, j: nat)
    requires i < 2 && j < 2
    ensures i + 2 * a == j + 2 * b <==> i == j && a == b
  {
  }

  lemma {:induction false} NoBits(a: nat, b: nat)
    ensures AgreeOutside(a, b, 0, 0) <==> a == b
  {
  }

  /** Inserting the same field into two words gives the same exactly when they agree outside of it. */
  lemma {:induction false} InsertedAgree(a: nat, b: nat, y: nat, lsb: nat, width: nat, n: nat)
    requires a < Pow2(n) && b < Pow2(n)
    ensures InsertedBits(a, y, lsb, width, n) == InsertedBits(b, y, lsb, width, n) <==> AgreeOutside(a, b, lsb, width)
    decreases n
  {
    hide AgreeOutside;
    if n == 0 {
      Alike(a, lsb, width);
    } else if lsb > 0 {
      BitsApart(InsertedBits(a / 2, y, lsb - 1, width, n - 1), InsertedBits(b / 2, y, lsb - 1, width, n - 1),
                a % 2, b % 2);
      InsertedAgree(a / 2, b / 2, y, lsb - 1, width, n - 1);
      OutsideBelow(a, b, lsb, width);
    } else if width > 0 {
      InsertedAgree(a / 2, b / 2, y / 2, 0, width - 1, n - 1);
      OutsideField(a, b, width);
    } else {
      BitsApart(InsertedBits(a / 2, y, 0, 0, n - 1), InsertedBits(b / 2, y, 0, 0, n - 1), a % 2, b % 2);
      InsertedAgree(a / 2, b / 2, y, 0, 0, n - 1);
      NoBits(a, b);
      NoBits(a / 2, b / 2);
    }
  }

  lemma {:induction false} Alike(a: nat, lsb: nat, width: nat)
    ensures AgreeOutside(a, a, lsb, width)
  {
  }

  lemma {:induction false} OutsideBelow(a: nat, b: nat, lsb: nat, width: nat)
    requires lsb > 0
    ensures AgreeOutside(a, b, lsb, width) <==> a % 2 == b % 2 && AgreeOutside(a / 2, b / 2, lsb - 1, width)
  {
    hide Pow2;
    var p, q := Pow2(lsb - 1), Pow2(lsb - 1 + width);
    Doubled(lsb);
    Doubled(lsb + width);
    LowStep(a, p);
    LowStep(b, p);
    BitsApart(a / 2 % p, b / 2 % p, a % 2, b % 2);
    QuotientsTwice(a, 2, q);
    QuotientsTwice(b, 2, q);
  }

  lemma {:induction false} OutsideField(a: nat, b: nat, width: nat)
    requires width > 0
    ensures AgreeOutside(a, b, 0, width) <==> AgreeOutside(a / 2, b / 2, 0, width - 1)
  {
    hide Pow2;
    assert Pow2(0) == 1 by { NoPower(); }
    Doubled(width);
    QuotientsTwice(a, 2, Pow2(width - 1));
    QuotientsTwice(b, 2, Pow2(width - 1));
  }
}
