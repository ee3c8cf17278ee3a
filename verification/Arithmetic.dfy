/** 32-bit addition with carry, the flags it sets, and the conditions that read them. */
module Arithmetic {
  import Processor

  type Byte = Processor.Byte
  type Word = Processor.Word

  const WORD_LIMIT := Processor.WORD_LIMIT
  const SIGN_BIT := 0x8000_0000

  /** N, Z, C and V of the program status register. */
  datatype Flags = Flags(n: bool, z: bool, c: bool, v: bool)

  /** The two's complement reading of a word. */
  function Signed(x: Word): int {
    if x < SIGN_BIT then x else x - WORD_LIMIT
  }

  function Complement(x: Word): Word {
    WORD_LIMIT - 1 - x
  }

  function Bit(b: bool): nat {
    if b then 1 else 0
  }

  datatype Sum = Sum(result: Word, carry: bool, overflow: bool)

  /** The carry is found by comparing the truncated sum with the wide one, the overflow by comparing
      the signed reading of the truncated sum with the wide signed sum. */
  function AddWithCarry(x: Word, y: Word, carryIn: bool): Sum {
    var unsignedSum := Bit(carryIn) + x + y;
    var signedSum := Bit(carryIn) + Signed(x) + Signed(y);
    var result := unsignedSum % WORD_LIMIT;
    Sum(result, result != unsignedSum, Signed(result) != signedSum)
  }

  function FlagsOf(s: Sum): Flags {
    Flags(s.result >= SIGN_BIT, s.result == 0, s.carry, s.overflow)
  }

  /** The flags CMP leaves: those of x - y, computed as x + ~y + 1. */
  function CompareFlags(x: Word, y: Word): Flags {
    FlagsOf(AddWithCarry(x, Complement(y), true))
  }

  /** A condition field is a base test in its upper three bits and an inversion in its lowest. */
  function Evaluate(condition: nat, f: Flags): bool
    requires condition < 16
  {
    var base :=
      match condition / 2
      case 0 => f.z
      case 1 => f.c
      case 2 => f.n
      case 3 => f.v
      case 4 => f.c && !f.z
      case 5 => f.n == f.v
      case 6 => f.n == f.v && !f.z
      case _ => true;
    if condition % 2 == 1 then !base else base
  }

  const EQ := 0
  const NE := 1
  const CS := 2
  const CC := 3
  const MI := 4
  const PL := 5
  const VS := 6
  const VC := 7
  const HI := 8
  const LS := 9
  const GE := 10
  const LT := 11
  const GT := 12
  const LE := 13

  /** After CMP x, y each condition decides the relation it is named for. */
  lemma {:induction false} CompareDecides(x: Word, y: Word)
    ensures var f := CompareFlags(x, y);
      && (Evaluate(EQ, f) <==> x == y)
      && (Evaluate(NE, f) <==> x != y)
      && (Evaluate(CS, f) <==> x >= y)
      && (Evaluate(CC, f) <==> x < y)
      && (Evaluate(HI, f) <==> x > y)
      && (Evaluate(LS, f) <==> x <= y)
      && (Evaluate(GE, f) <==> Signed(x) >= Signed(y))
      && (Evaluate(LT, f) <==> Signed(x) < Signed(y))
      && (Evaluate(GT, f) <==> Signed(x) > Signed(y))
      && (Evaluate(LE, f) <==> Signed(x) <= Signed(y))
      && (Evaluate(VS, f) <==> !(-SIGN_BIT <= Signed(x) - Signed(y) < SIGN_BIT))
      && (Evaluate(VC, f) <==> -SIGN_BIT <= Signed(x) - Signed(y) < SIGN_BIT)
      && (Evaluate(MI, f) <==> (x - y) % WORD_LIMIT >= SIGN_BIT)
      && (Evaluate(PL, f) <==> (x - y) % WORD_LIMIT < SIGN_BIT)
  {
    var s := AddWithCarry(x, Complement(y), true);
    assert s.result == (x - y + WORD_LIMIT) % WORD_LIMIT;
    if x < y {
      assert s.result == x - y + WORD_LIMIT;
    } else {
      assert s.result == x - y;
    }
  }

  // ----- Numbers of several words, least significant word first -----

  function Power(n: nat): (r: nat)
    ensures r > 0
  {
    if n == 0 then 1 else WORD_LIMIT * Power(n - 1)
  }

  function Number(xs: seq<Word>): (r: nat)
    ensures r < Power(|xs|)
  {
    if xs == [] then 0 else
      var rest := Number(xs[1..]);
      assert rest <= Power(|xs| - 1) - 1;
      xs[0] + WORD_LIMIT * rest
  }

  /** The two's complement reading of the whole number: its top word carries the sign. */
  function SignedNumber(xs: seq<Word>): int
    requires xs != []
  {
    if xs[|xs| - 1] < SIGN_BIT then Number(xs) else Number(xs) - Power(|xs|)
  }

  /** What a chain of ADCS leaves: the result words and the flags of the last one. */
  datatype Chain = Chain(words: seq<Word>, flags: Flags)

  /** ADCS on each pair of words in turn, each taking the carry the one before it set. */
  function AddChain(xs: seq<Word>, ys: seq<Word>, f: Flags): (r: Chain)
    requires |xs| == |ys|
    ensures |r.words| == |xs|
  {
    if xs == [] then Chain([], f) else
      var s := AddWithCarry(xs[0], ys[0], f.c);
      var rest := AddChain(xs[1..], ys[1..], FlagsOf(s));
      Chain([s.result] + rest.words, rest.flags)
  }

  function Complements(ys: seq<Word>): (r: seq<Word>)
    ensures |r| == |ys|
  {
    seq(|ys|, i requires 0 <= i < |ys| => Complement(ys[i]))
  }

  /** SBCS on each pair of words in turn. */
  function SubChain(xs: seq<Word>, ys: seq<Word>, f: Flags): (r: Chain)
    requires |xs| == |ys|
    ensures |r.words| == |xs|
  {
    AddChain(xs, Complements(ys), f)
  }

  lemma {:induction false} AddIsExact(x: Word, y: Word, c: bool)
    ensures var s := AddWithCarry(x, y, c); s.result + WORD_LIMIT * Bit(s.carry) == x + y + Bit(c)
  {
  }

  lemma {:induction false} NumberFront(x: Word, xs: seq<Word>)
    ensures Number([x] + xs) == x + WORD_LIMIT * Number(xs)
  {
    assert ([x] + xs)[1..] == xs;
  }

  lemma {:induction false} ChainFront(xs: seq<Word>, ys: seq<Word>, f: Flags)
    requires |xs| == |ys| > 0
    ensures var s := AddWithCarry(xs[0], ys[0], f.c);
      var rest := AddChain(xs[1..], ys[1..], FlagsOf(s));
      AddChain(xs, ys, f) == Chain([s.result] + rest.words, rest.flags)
  {
    hide AddWithCarry, FlagsOf;
  }

  /** Adding the lowest words in front of an exact sum of the others. */
  lemma {:induction false} SumFront(x: int, y: int, r: int, xs: int, ys: int, rs: int, low: int, carry: int, p: int,
                                    top: bool)
    requires r + WORD_LIMIT * carry == x + y + low && rs + p * Bit(top) == xs + ys + carry
    ensures (r + WORD_LIMIT * rs) + WORD_LIMIT * p * Bit(top) == (x + WORD_LIMIT * xs) + (y + WORD_LIMIT * ys) + low
  {
  }

  /** A chain of ADCS computes the exact sum, the final carry being the word that does not fit. */
  lemma {:induction false} AddChainIsExact(xs: seq<Word>, ys: seq<Word>, f: Flags)
    requires |xs| == |ys|
    ensures var r := AddChain(xs, ys, f);
      Number(r.words) + Power(|xs|) * Bit(r.flags.c) == Number(xs) + Number(ys) + Bit(f.c)
  {
    hide AddWithCarry, Number, Power, AddChain, Bit;
    if xs == [] {
      NothingAdded(f);
    } else {
      var s := AddWithCarry(xs[0], ys[0], f.c);
      var rest := AddChain(xs[1..], ys[1..], FlagsOf(s));
      AddIsExact(xs[0], ys[0], f.c);
      AddChainIsExact(xs[1..], ys[1..], FlagsOf(s));
      ChainFront(xs, ys, f);
      assert [xs[0]] + xs[1..] == xs && [ys[0]] + ys[1..] == ys;
      NumberFront(xs[0], xs[1..]);
      NumberFront(ys[0], ys[1..]);
      NumberFront(s.result, rest.words);
      PowerStep(|xs| - 1);
      SumFront(xs[0], ys[0], s.result, Number(xs[1..]), Number(ys[1..]), Number(rest.words), Bit(f.c), Bit(s.carry),
               Power(|xs| - 1), rest.flags.c);
    }
  }

  lemma {:induction false} NothingAdded(f: Flags)
    ensures AddChain([], [], f) == Chain([], f) && Number([]) == 0 && Power(0) == 1
  {
  }

  lemma {:induction false} PowerStep(n: nat)
    ensures Power(n + 1) == WORD_LIMIT * Power(n)
  {
  }

  lemma {:induction false} ComplementsNumber(ys: seq<Word>)
    ensures Number(Complements(ys)) == Power(|ys|) - 1 - Number(ys)
  {
    if ys == [] {
    } else {
      assert Complements(ys)[1..] == Complements(ys[1..]);
      ComplementsNumber(ys[1..]);
    }
  }

  /** The sum with the complement, read as a difference. */
  lemma {:induction false} Borrowed(x: int, y: int, r: int, p: int, carry: bool, top: bool)
    requires r + p * Bit(top) == x + (p - 1 - y) + Bit(carry)
    ensures r == x - y - Bit(!carry) + p * Bit(!top)
  {
  }

  /** A chain of SBCS computes the exact difference, a clear final carry being the borrow. */
  lemma {:induction false} SubChainIsExact(xs: seq<Word>, ys: seq<Word>, f: Flags)
    requires |xs| == |ys|
    ensures var r := SubChain(xs, ys, f);
      Number(r.words) == Number(xs) - Number(ys) - Bit(!f.c) + Power(|xs|) * Bit(!r.flags.c)
  {
    hide AddChain, Number, Power, Bit;
    AddChainIsExact(xs, Complements(ys), f);
    ComplementsNumber(ys);
    var r := SubChain(xs, ys, f);
    Borrowed(Number(xs), Number(ys), Number(r.words), Power(|xs|), f.c, r.flags.c);
  }

  lemma {:induction false} LastFlags(xs: seq<Word>, ys: seq<Word>, f: Flags)
    requires |xs| == |ys| > 0
    ensures var r := AddChain(xs, ys, f);
      && (r.flags.n <==> r.words[|xs| - 1] >= SIGN_BIT)
      && (r.flags.v <==>
            var top := Signed(xs[|xs| - 1]) + Signed(ys[|xs| - 1]);
            Signed(r.words[|xs| - 1]) - top !in {0, 1})
  {
    var s := AddWithCarry(xs[0], ys[0], f.c);
    if |xs| > 1 {
      LastFlags(xs[1..], ys[1..], FlagsOf(s));
    }
  }

  lemma {:induction false} ShiftedTop(x: int, low: int, p: int, top: int)
    ensures x + WORD_LIMIT * (low + p * top) == (x + WORD_LIMIT * low) + WORD_LIMIT * p * top
  {
  }

  lemma {:induction false} TopWord(xs: seq<Word>)
    requires xs != []
    ensures var n := |xs| - 1; Number(xs) == Number(xs[..n]) + Power(n) * xs[n]
  {
    hide Number, Power;
    var n := |xs| - 1;
    assert [xs[0]] + xs[1..] == xs;
    NumberFront(xs[0], xs[1..]);
    if n == 0 {
      OneWord(xs);
    } else {
      TopWord(xs[1..]);
      assert xs[1..][..n - 1] == xs[1..n] && [xs[0]] + xs[1..n] == xs[..n];
      NumberFront(xs[0], xs[1..n]);
      PowerStep(n - 1);
      ShiftedTop(xs[0], Number(xs[1..n]), Power(n - 1), xs[n]);
    }
  }

  lemma {:induction false} OneWord(xs: seq<Word>)
    requires |xs| == 1
    ensures Number(xs) == xs[0] && Number(xs[..0]) == 0 && Power(0) == 1
  {
  }

  lemma {:induction false} MulOrder(p: int, q: int, m: int)
    requires p > 0
    ensures q >= m ==> p * q >= p * m
    ensures q <= m ==> p * q <= p * m
  {
  }

  lemma {:induction false} SignedTop(p: nat, w: Word, low: nat)
    requires p > 0 && low < p
    ensures p * Signed(w) == p * w - WORD_LIMIT * p * Bit(w >= SIGN_BIT)
    ensures low + p * Signed(w) < 0 <==> w >= SIGN_BIT
  {
    if w >= SIGN_BIT {
      assert p * (w - WORD_LIMIT) == p * w - WORD_LIMIT * p;
      MulOrder(p, Signed(w), -1);
    } else {
      MulOrder(p, Signed(w), 0);
    }
  }

  lemma {:induction false} SignedTopWord(xs: seq<Word>)
    requires xs != []
    ensures var n := |xs| - 1; SignedNumber(xs) == Number(xs[..n]) + Power(n) * Signed(xs[n])
    ensures SignedNumber(xs) == Number(xs) - Power(|xs|) * Bit(xs[|xs| - 1] >= SIGN_BIT)
    ensures SignedNumber(xs) < 0 <==> xs[|xs| - 1] >= SIGN_BIT
  {
    hide Number, Power, Signed;
    var n := |xs| - 1;
    TopWord(xs);
    PowerStep(n);
    SignedTop(Power(n), xs[n], Number(xs[..n]));
  }

  /** With low parts below p, two numbers p apart by k words of 2^32 agree exactly when the top
      words differ by a carry at most. */
  lemma {:induction false} CarryOnly(p: nat, low: int, top: int, k: int)
    requires p > 0 && -1 * p < low < 2 * p
    requires p * (top - WORD_LIMIT * k) == low
    requires -2 * WORD_LIMIT < top < 2 * WORD_LIMIT
    ensures top in {0, 1} <==> k == 0
  {
    var q := top - WORD_LIMIT * k;
    MulOrder(p, q, -1);
    MulOrder(p, q, 2);
  }

  lemma {:induction false} Spread(p: int, a: int, b: int, c: int, m: int)
    ensures p * (a - b - c - WORD_LIMIT * m) == p * a - p * b - p * c - WORD_LIMIT * p * m
  {
    assert WORD_LIMIT * p * m == p * (WORD_LIMIT * m);
  }

  lemma {:induction false} Gather(p: int, a: bool, b: bool, c: bool, d: bool)
    ensures p * (Bit(a) + Bit(b) - Bit(c) - Bit(d)) == p * Bit(a) + p * Bit(b) - p * Bit(c) - p * Bit(d)
  {
  }

  /** Sums of whole numbers read with their signs: k collects the four top bits. */
  lemma {:induction false} SignedSum(p: int, x: int, y: int, r: int, low: int, sx: bool, sy: bool, sr: bool, c: bool)
    requires r + p * Bit(c) == x + y + low
    ensures var k := Bit(sx) + Bit(sy) - Bit(sr) - Bit(c);
      r - p * Bit(sr) == (x - p * Bit(sx)) + (y - p * Bit(sy)) + low + p * k
  {
    Gather(p, sx, sy, sr, c);
  }

  /** The same by low parts and top words. */
  lemma {:induction false} TopSum(p: int, xs: int, ys: int, rs: int, x: int, y: int, r: int, low: int, k: int)
    requires rs + p * r == (xs + p * x) + (ys + p * y) + low + WORD_LIMIT * p * k
    ensures p * (r - x - y - WORD_LIMIT * k) == xs + ys + low - rs
  {
    Spread(p, r, x, y, k);
  }

  /** The signed sum of the whole numbers misses the result by k times the range; the overflow flag
      says that it misses at all. */
  lemma {:induction false} AddChainSigned(xs: seq<Word>, ys: seq<Word>, f: Flags) returns (k: int)
    requires |xs| == |ys| > 0
    ensures var r := AddChain(xs, ys, f);
      && (r.flags.n <==> SignedNumber(r.words) < 0)
      && SignedNumber(r.words) == SignedNumber(xs) + SignedNumber(ys) + Bit(f.c) + Power(|xs|) * k
      && (!r.flags.v <==> k == 0)
  {
    hide AddChain, SignedNumber, Number, Power, AddWithCarry, Bit, Signed;
    AddChainIsExact(xs, ys, f);
    LastFlags(xs, ys, f);
    var r := AddChain(xs, ys, f);
    SignedTopWord(xs);
    SignedTopWord(ys);
    SignedTopWord(r.words);
    var n := |xs| - 1;
    PowerStep(n);
    var p := Power(n);
    var sx, sy, sr := xs[n] >= SIGN_BIT, ys[n] >= SIGN_BIT, r.words[n] >= SIGN_BIT;
    k := Bit(sx) + Bit(sy) - Bit(sr) - Bit(r.flags.c);
    SignedSum(Power(n + 1), Number(xs), Number(ys), Number(r.words), Bit(f.c), sx, sy, sr, r.flags.c);
    TopSum(p, Number(xs[..n]), Number(ys[..n]), Number(r.words[..n]), Signed(xs[n]), Signed(ys[n]),
           Signed(r.words[n]), Bit(f.c), k);
    TopCarry(p, Number(xs[..n]), Number(ys[..n]), Number(r.words[..n]), xs[n], ys[n], r.words[n], f.c, k);
  }

  lemma {:induction false} TopCarry(p: nat, xs: nat, ys: nat, rs: nat, x: Word, y: Word, r: Word, c: bool, k: int)
    requires p > 0 && xs < p && ys < p && rs < p
    requires p * (Signed(r) - Signed(x) - Signed(y) - WORD_LIMIT * k) == xs + ys + Bit(c) - rs
    ensures Signed(r) - (Signed(x) + Signed(y)) in {0, 1} <==> k == 0
  {
    CarryOnly(p, xs + ys + Bit(c) - rs, Signed(r) - Signed(x) - Signed(y), k);
  }

  /** The overflow flag of the top word is clear exactly when the signed sum of the whole numbers fits. */
  lemma {:induction false} AddChainOverflow(xs: seq<Word>, ys: seq<Word>, f: Flags)
    requires |xs| == |ys| > 0
    ensures var r := AddChain(xs, ys, f);
      !r.flags.v <==> SignedNumber(r.words) == SignedNumber(xs) + SignedNumber(ys) + Bit(f.c)
  {
    hide AddChain, SignedNumber, Power;
    var k := AddChainSigned(xs, ys, f);
    if k != 0 {
      NonZero(Power(|xs|), k);
    }
  }

  lemma {:induction false} SignedRange(xs: seq<Word>)
    requires xs != []
    ensures -1 * Power(|xs|) <= 2 * SignedNumber(xs) < Power(|xs|)
  {
    hide Number, SignedNumber, Power;
    var n := |xs| - 1;
    SignedTopWord(xs);
    PowerStep(n);
    MulOrder(Power(n), Signed(xs[n]), SIGN_BIT - 1);
    MulOrder(Power(n), Signed(xs[n]), -SIGN_BIT);
  }

  lemma {:induction false} NonZero(p: int, k: int)
    requires p > 0 && k != 0
    ensures p * k != 0
  {
  }

  lemma {:induction false} ComplementsSigned(ys: seq<Word>)
    requires ys != []
    ensures SignedNumber(Complements(ys)) == -1 - SignedNumber(ys)
  {
    ComplementsNumber(ys);
  }

  /** After subtracting whole numbers word by word (the first without borrow), carry decides the
      unsigned order and N against V decides the signed one. */
  lemma {:induction false} SubChainCompares(xs: seq<Word>, ys: seq<Word>, f: Flags)
    requires |xs| == |ys| > 0 && f.c
    ensures var g := SubChain(xs, ys, f).flags;
      && (Evaluate(CS, g) <==> Number(xs) >= Number(ys))
      && (Evaluate(CC, g) <==> Number(xs) < Number(ys))
      && (Evaluate(GE, g) <==> SignedNumber(xs) >= SignedNumber(ys))
      && (Evaluate(LT, g) <==> SignedNumber(xs) < SignedNumber(ys))
  {
    hide AddChain, Number, Power, AddWithCarry;
    SubChainIsExact(xs, ys, f);
    var r := SubChain(xs, ys, f);
    if r.flags.c {
      assert Power(|xs|) * 0 == 0;
    } else {
      assert Power(|xs|) * 1 == Power(|xs|);
    }
    var k := AddChainSigned(xs, Complements(ys), f);
    ComplementsSigned(ys);
    SignedRange(xs);
    SignedRange(ys);
    SignedRange(r.words);
    MulOrder(Power(|xs|), k, -1);
    MulOrder(Power(|xs|), k, 1);
  }
}
