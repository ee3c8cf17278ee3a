/** The cipher: its steps in place on a state of sixteen bytes, and that every one can be undone.
    Addition in the field is a function of its own, so that the proofs are about sums and not about bits;
    mixing a column is related to the matrix product of the standard, and mixing it four times is found to
    change nothing, so that it can be undone. */
module Aes {
  import opened AesTable

  type Block = s: seq<bv8> | |s| == 16 witness seq(16, _ => 0)

  /** Eleven round keys of sixteen bytes. */
  type Schedule = k: seq<bv8> | |k| == 176 witness seq(176, _ => 0)

  // ----- The field with 256 elements -----

  /** The product of two polynomials over two elements. */
  function Product(a: bv8, b: bv8): bv16 {
    var p := b as bv16;
    (if a & 0x01 != 0 then p else 0) ^ (if a & 0x02 != 0 then p << 1 else 0) ^
    (if a & 0x04 != 0 then p << 2 else 0) ^ (if a & 0x08 != 0 then p << 3 else 0) ^
    (if a & 0x10 != 0 then p << 4 else 0) ^ (if a & 0x20 != 0 then p << 5 else 0) ^
    (if a & 0x40 != 0 then p << 6 else 0) ^ (if a & 0x80 != 0 then p << 7 else 0)
  }

  /** One step of the division by x^8 + x^4 + x^3 + x + 1: a multiple of it takes the bit away. */
  function Reduced(p: bv16, bit: bv16, multiple: bv16): bv16 {
    if p & bit != 0 then p ^ multiple else p
  }

  /** The remainder of a polynomial below x^15. */
  function Remainder(p: bv16): bv16 {
    Reduced(Reduced(Reduced(Reduced(Reduced(Reduced(Reduced(p, 0x4000, 0x46c0), 0x2000, 0x2360), 0x1000, 0x11b0),
      0x0800, 0x08d8), 0x0400, 0x046c), 0x0200, 0x0236), 0x0100, 0x011b)
  }

  /** The product of two field elements: the remainder of the product of the polynomials. */
  function Times(a: bv8, b: bv8): bv8 {
    (Remainder(Product(a, b)) & 0xff) as bv8
  }

  function XTime(x: bv8): bv8 {
    (x << 1) ^ (if x & 0x80 != 0 then 0x1b else 0)
  }

  lemma {:induction false} SmallProducts(x: bv8)
    ensures Product(2, x) == (x as bv16) << 1 && Product(3, x) == (x as bv16) ^ ((x as bv16) << 1)
  {
  }

  lemma {:induction false} SmallRemainder(p: bv16)
    requires p < 0x200
    ensures Remainder(p) == Reduced(p, 0x0100, 0x011b)
  {
  }

  lemma {:induction false} XTimeIsTimesTwo(x: bv8)
    ensures XTime(x) == Times(2, x)
  {
    hide Product, Remainder;
    SmallProducts(x);
    var p := (x as bv16) << 1;
    assert p < 0x200;
    SmallRemainder(p);
    TwiceRemainder(x);
  }

  lemma {:induction false} TwiceRemainder(x: bv8)
    ensures XTime(x) == (Reduced((x as bv16) << 1, 0x0100, 0x011b) & 0xff) as bv8
    ensures XTime(x) ^ x == (Reduced((x as bv16) ^ ((x as bv16) << 1), 0x0100, 0x011b) & 0xff) as bv8
  {
  }

  lemma {:induction false} TimesThree(x: bv8)
    ensures Plus(XTime(x), x) == Times(3, x)
  {
    hide Product, Remainder;
    SmallProducts(x);
    var p := (x as bv16) ^ ((x as bv16) << 1);
    assert p < 0x200;
    SmallRemainder(p);
    TwiceRemainder(x);
  }

  // ----- Columns -----

  /** Addition in the field, of two and of four elements. */
  function Plus(x: bv8, y: bv8): bv8 {
    x ^ y
  }

  function Sum(a: bv8, b: bv8, c: bv8, d: bv8): bv8 {
    Plus(Plus(Plus(a, b), c), d)
  }

  lemma {:induction false} PlusCommutes(x: bv8, y: bv8)
    ensures Plus(x, y) == Plus(y, x) && Plus(x, x) == 0 && Plus(x, 0) == x && Plus(0, x) == x
  {
  }

  lemma {:induction false} PlusAssociates(x: bv8, y: bv8, z: bv8)
    ensures Plus(Plus(x, y), z) == Plus(x, Plus(y, z))
  {
    assert (x ^ y) ^ z == x ^ (y ^ z);
  }

  lemma {:induction false} Exchange(w: bv8, x: bv8, y: bv8, z: bv8)
    ensures Plus(Plus(w, x), Plus(y, z)) == Plus(Plus(w, y), Plus(x, z))
  {
    hide Plus;
    PlusAssociates(w, x, Plus(y, z));
    PlusAssociates(x, y, z);
    PlusCommutes(x, y);
    PlusAssociates(y, x, z);
    PlusAssociates(w, y, Plus(x, z));
  }

  /** What lies in the middle of two sums drops out. */
  lemma {:induction false} MiddleDrops(a: bv8, b: bv8, c: bv8)
    ensures Plus(Plus(a, b), Plus(b, c)) == Plus(a, c)
  {
    hide Plus;
    PlusAssociates(a, b, Plus(b, c));
    PlusAssociates(b, b, c);
    PlusCommutes(b, b);
    PlusCommutes(c, c);
  }

  lemma {:induction false} ShiftLinear(x: bv8, y: bv8)
    ensures (x ^ y) << 1 == (x << 1) ^ (y << 1)
    ensures (x ^ y) & 0x80 != 0 <==> (x & 0x80 != 0) != (y & 0x80 != 0)
  {
  }

  function Carried(x: bv8): bv8 {
    if x & 0x80 != 0 then 0x1b else 0
  }

  lemma {:induction false} XTimeLinear(x: bv8, y: bv8)
    ensures XTime(Plus(x, y)) == Plus(XTime(x), XTime(y))
  {
    ShiftLinear(x, y);
    var a, b := x << 1, y << 1;
    var p, q, r := Carried(x), Carried(y), Carried(x ^ y);
    CarriedLinear(x, y);
    XTimeIs(x, a, p);
    XTimeIs(y, b, q);
    XTimeIs(x ^ y, a ^ b, r);
    SameSums(x, y, a, b, p, q, r);
  }

  lemma {:induction false} CarriedLinear(x: bv8, y: bv8)
    ensures Carried(x ^ y) == Plus(Carried(x), Carried(y))
  {
    ShiftLinear(x, y);
  }

  lemma {:induction false} XTimeIs(x: bv8, a: bv8, p: bv8)
    requires a == x << 1 && p == Carried(x)
    ensures XTime(x) == Plus(a, p)
  {
  }

  lemma {:induction false} SameSums(x: bv8, y: bv8, a: bv8, b: bv8, p: bv8, q: bv8, r: bv8)
    requires XTime(x) == Plus(a, p) && XTime(y) == Plus(b, q) && XTime(x ^ y) == Plus(a ^ b, r) && r == Plus(p, q)
    ensures XTime(Plus(x, y)) == Plus(XTime(x), XTime(y))
  {
    hide XTime, Plus;
    PlusIs(x, y);
    PlusIs(a, b);
    Exchange(a, b, p, q);
  }

  lemma {:induction false} PlusIs(x: bv8, y: bv8)
    ensures Plus(x, y) == x ^ y
  {
  }

  datatype Column = Column(a: bv8, b: bv8, c: bv8, d: bv8)

  /** A byte with the double of its sum with the next one and the sum of the column added. */
  function MixByte(a: bv8, b: bv8, c: bv8, d: bv8): bv8 {
    Plus(Plus(a, XTime(Plus(a, b))), Sum(a, b, c, d))
  }

  /** One column as the cipher mixes it. */
  function Mixed(x: Column): Column {
    Column(MixByte(x.a, x.b, x.c, x.d), MixByte(x.b, x.c, x.d, x.a), MixByte(x.c, x.d, x.a, x.b),
           MixByte(x.d, x.a, x.b, x.c))
  }

  /** A row of the fixed matrix, (2 3 1 1) turned to start at the byte on the diagonal. */
  function Row(a: bv8, b: bv8, c: bv8, d: bv8): bv8 {
    Sum(Times(2, a), Times(3, b), Times(1, c), Times(1, d))
  }

  /** The product of the fixed circulant matrix with the column. */
  function MatrixProduct(x: Column): Column {
    Column(Row(x.a, x.b, x.c, x.d), Row(x.b, x.c, x.d, x.a), Row(x.c, x.d, x.a, x.b), Row(x.d, x.a, x.b, x.c))
  }

  lemma {:induction false} MixSums(a: bv8, b: bv8, c: bv8, d: bv8, xa: bv8, xb: bv8)
    ensures Plus(Plus(a, Plus(xa, xb)), Sum(a, b, c, d)) == Sum(xa, Plus(xb, b), c, d)
  {
    hide Plus;
    var x := Plus(xa, xb);
    PlusAssociates(Plus(a, x), Plus(Plus(a, b), c), d);
    PlusAssociates(Plus(a, x), Plus(a, b), c);
    Exchange(a, x, a, b);
    PlusCommutes(a, a);
    PlusCommutes(Plus(x, b), a);
    PlusAssociates(xa, xb, b);
  }

  lemma {:induction false} TimesOne(x: bv8)
    ensures Times(1, x) == x
  {
    hide Product, Remainder;
    OneProduct(x);
    SmallRemainder(x as bv16);
  }

  lemma {:induction false} OneProduct(x: bv8)
    ensures Product(1, x) == x as bv16
  {
  }

  lemma {:induction false} MixedByte(a: bv8, b: bv8, c: bv8, d: bv8)
    ensures MixByte(a, b, c, d) == Row(a, b, c, d)
  {
    hide XTime, Times, Plus, Sum;
    XTimeLinear(a, b);
    XTimeIsTimesTwo(a);
    TimesThree(b);
    TimesOne(c);
    TimesOne(d);
    MixSums(a, b, c, d, XTime(a), XTime(b));
  }

  /** Mixing a column is the matrix product over the field. */
  lemma {:induction false} MixedIsMatrixProduct(x: Column)
    ensures Mixed(x) == MatrixProduct(x)
  {
    hide MixByte, Row;
    MixedByte(x.a, x.b, x.c, x.d);
    MixedByte(x.b, x.c, x.d, x.a);
    MixedByte(x.c, x.d, x.a, x.b);
    MixedByte(x.d, x.a, x.b, x.c);
  }

  function Four(x: bv8): bv8 {
    XTime(XTime(x))
  }

  /** Four times the sum of opposite bytes added to each byte. */
  function Turn(x: Column): Column {
    Column(Plus(x.a, Four(Plus(x.a, x.c))), Plus(x.b, Four(Plus(x.b, x.d))), Plus(x.c, Four(Plus(x.c, x.a))),
           Plus(x.d, Four(Plus(x.d, x.b))))
  }

  lemma {:induction false} SumTurned(a: bv8, b: bv8, c: bv8, d: bv8)
    ensures Sum(a, b, c, d) == Sum(b, c, d, a)
  {
    hide Plus;
    PlusAssociates(a, b, c);
    PlusAssociates(a, Plus(b, c), d);
    PlusCommutes(a, Plus(Plus(b, c), d));
  }

  lemma {:induction false} PairSums(a: bv8, b: bv8, p: bv8, q: bv8, s: bv8)
    ensures Plus(Plus(Plus(a, p), s), Plus(Plus(b, q), s)) == Plus(Plus(a, b), Plus(p, q))
  {
    hide Plus;
    Exchange(Plus(a, p), s, Plus(b, q), s);
    PlusCommutes(s, s);
    PlusCommutes(Plus(Plus(a, p), Plus(b, q)), s);
    Exchange(a, p, b, q);
  }

  lemma {:induction false} LastSums(a: bv8, p: bv8, s: bv8, t: bv8)
    ensures Plus(Plus(Plus(Plus(a, p), s), Plus(p, t)), s) == Plus(a, t)
  {
    hide Plus;
    Exchange(Plus(a, p), s, p, t);
    PlusAssociates(a, p, p);
    PlusCommutes(p, p);
    PlusCommutes(a, p);
    PlusAssociates(a, Plus(s, t), s);
    PlusCommutes(s, t);
    PlusAssociates(t, s, s);
    PlusCommutes(s, s);
    PlusCommutes(t, s);
  }

  lemma {:induction false} SumAdds(a: bv8, b: bv8, c: bv8, d: bv8, p: bv8, q: bv8, r: bv8, t: bv8)
    ensures Sum(Plus(a, p), Plus(b, q), Plus(c, r), Plus(d, t)) == Plus(Sum(a, b, c, d), Sum(p, q, r, t))
  {
    hide Plus;
    Exchange(a, p, b, q);
    Exchange(Plus(a, b), Plus(p, q), c, r);
    Exchange(Plus(Plus(a, b), c), Plus(Plus(p, q), r), d, t);
  }

  /** Mixing keeps the sum of a column. */
  lemma {:induction false} SumKept(a: bv8, b: bv8, c: bv8, d: bv8, p: bv8, q: bv8, r: bv8, t: bv8, s: bv8)
    requires Sum(p, q, r, t) == 0
    ensures Sum(Plus(Plus(a, p), s), Plus(Plus(b, q), s), Plus(Plus(c, r), s), Plus(Plus(d, t), s)) == Sum(a, b, c, d)
  {
    hide Plus, Sum;
    SumAdds(Plus(a, p), Plus(b, q), Plus(c, r), Plus(d, t), s, s, s, s);
    SumAdds(a, b, c, d, p, q, r, t);
    SumOfSame(s);
    PlusCommutes(Sum(a, b, c, d), s);
  }

  lemma {:induction false} SumOfSame(s: bv8)
    ensures Sum(s, s, s, s) == 0
  {
    hide Plus;
    PlusCommutes(s, s);
  }

  lemma {:induction false} DoublesCancel(a: bv8, b: bv8, c: bv8, d: bv8)
    ensures Sum(XTime(Plus(a, b)), XTime(Plus(b, c)), XTime(Plus(c, d)), XTime(Plus(d, a))) == 0
  {
    hide XTime, Plus;
    XTimeLinear(Plus(a, b), Plus(b, c));
    MiddleDrops(a, b, c);
    XTimeLinear(Plus(a, c), Plus(c, d));
    MiddleDrops(a, c, d);
    PlusCommutes(a, d);
    PlusCommutes(XTime(Plus(a, d)), 0);
  }

  /** A byte mixed twice is turned. */
  lemma {:induction false} TwiceMixed(a: bv8, b: bv8, c: bv8, d: bv8)
    ensures MixByte(MixByte(a, b, c, d), MixByte(b, c, d, a), MixByte(c, d, a, b), MixByte(d, a, b, c)) ==
      Plus(a, Four(Plus(a, c)))
  {
    hide XTime, Plus, Sum;
    var p, q, s := XTime(Plus(a, b)), XTime(Plus(b, c)), Sum(a, b, c, d);
    SumTurned(a, b, c, d);
    SumTurned(b, c, d, a);
    SumTurned(c, d, a, b);
    DoublesCancel(a, b, c, d);
    SumKept(a, b, c, d, p, q, XTime(Plus(c, d)), XTime(Plus(d, a)), s);
    PairSums(a, b, p, q, s);
    XTimeLinear(Plus(a, b), Plus(b, c));
    MiddleDrops(a, b, c);
    XTimeLinear(Plus(a, b), XTime(Plus(a, c)));
    LastSums(a, p, s, Four(Plus(a, c)));
  }

  lemma {:induction false} MixedTwice(x: Column)
    ensures Mixed(Mixed(x)) == Turn(x)
  {
    hide MixByte, Plus, Four;
    TwiceMixed(x.a, x.b, x.c, x.d);
    TwiceMixed(x.b, x.c, x.d, x.a);
    TwiceMixed(x.c, x.d, x.a, x.b);
    TwiceMixed(x.d, x.a, x.b, x.c);
  }

  lemma {:induction false} TurnedBack(a: bv8, c: bv8, u: bv8)
    ensures Plus(Plus(a, u), Plus(c, u)) == Plus(a, c) && Plus(Plus(a, u), u) == a && Plus(a, c) == Plus(c, a)
  {
    hide Plus;
    PlusCommutes(c, u);
    MiddleDrops(a, u, c);
    PlusAssociates(a, u, u);
    PlusCommutes(u, u);
    PlusCommutes(a, c);
  }

  lemma {:induction false} TurnTwice(x: Column)
    ensures Turn(Turn(x)) == x
  {
    hide Plus, Four;
    TurnedBack(x.a, x.c, Four(Plus(x.a, x.c)));
    TurnedBack(x.c, x.a, Four(Plus(x.a, x.c)));
    TurnedBack(x.b, x.d, Four(Plus(x.b, x.d)));
    TurnedBack(x.d, x.b, Four(Plus(x.b, x.d)));
  }

  /** Mixing undone: mixing four times does nothing. */
  function Unmixed(x: Column): Column {
    Mixed(Turn(x))
  }

  lemma {:induction false} MixUndone(x: Column)
    ensures Unmixed(Mixed(x)) == x && Mixed(Unmixed(x)) == x
  {
    hide Mixed, Turn;
    MixedTwice(Mixed(x));
    MixedTwice(Mixed(Mixed(x)));
    MixedTwice(x);
    TurnTwice(x);
    MixedTwice(Turn(x));
  }

  // ----- The steps on the whole state -----

  /** The i-th column lies at four consecutive bytes. */
  function ColumnAt(s: Block, i: nat): Column
    requires i < 4
  {
    Column(s[4 * i], s[4 * i + 1], s[4 * i + 2], s[4 * i + 3])
  }

  function Byte(x: Column, j: nat): bv8
    requires j < 4
  {
    if j == 0 then x.a else if j == 1 then x.b else if j == 2 then x.c else x.d
  }

  function AddRoundKey(s: Block, keys: Schedule, round: nat): Block
    requires round <= 10
  {
    seq(16, k requires 0 <= k < 16 => Plus(s[k], keys[16 * round + k]))
  }

  function SubBytes(s: Block): Block {
    seq(16, k requires 0 <= k < 16 => Sub(s[k]))
  }

  function InverseSubBytes(s: Block): Block {
    seq(16, k requires 0 <= k < 16 => InverseSub(s[k]))
  }

  /** Row j is turned by j columns. */
  function ShiftRows(s: Block): Block {
    seq(16, k requires 0 <= k < 16 => s[(k + 4 * (k % 4)) % 16])
  }

  function InverseShiftRows(s: Block): Block {
    seq(16, k requires 0 <= k < 16 => s[(k + 12 * (k % 4)) % 16])
  }

  function MixColumns(s: Block): Block {
    seq(16, k requires 0 <= k < 16 => Byte(Mixed(ColumnAt(s, k / 4)), k % 4))
  }

  function InverseMixColumns(s: Block): Block {
    seq(16, k requires 0 <= k < 16 => Byte(Unmixed(ColumnAt(s, k / 4)), k % 4))
  }

  /** Rounds from `round` to the last full one. */
  function Rounds(s: Block, keys: Schedule, round: nat): Block
    requires 1 <= round <= 10
    decreases 10 - round
  {
    if round == 10 then s
    else Rounds(AddRoundKey(MixColumns(ShiftRows(SubBytes(s))), keys, round), keys, round + 1)
  }

  function Encrypted(s: Block, keys: Schedule): Block {
    AddRoundKey(ShiftRows(SubBytes(Rounds(AddRoundKey(s, keys, 0), keys, 1))), keys, 10)
  }

  function RoundsUndone(s: Block, keys: Schedule, round: nat): Block
    requires 1 <= round <= 10
    decreases 10 - round
  {
    if round == 10 then s
    else
      InverseSubBytes(InverseShiftRows(InverseMixColumns(
        AddRoundKey(RoundsUndone(s, keys, round + 1), keys, round))))
  }

  function Decrypted(s: Block, keys: Schedule): Block {
    AddRoundKey(RoundsUndone(InverseSubBytes(InverseShiftRows(AddRoundKey(s, keys, 10))), keys, 1), keys, 0)
  }

  lemma {:induction false} KeyUndone(s: Block, keys: Schedule, round: nat)
    requires round <= 10
    ensures AddRoundKey(AddRoundKey(s, keys, round), keys, round) == s
  {
    hide Plus;
    forall k | 0 <= k < 16 ensures Plus(Plus(s[k], keys[16 * round + k]), keys[16 * round + k]) == s[k] {
      XorTwice(s[k], keys[16 * round + k]);
    }
  }

  lemma {:induction false} XorTwice(x: bv8, y: bv8)
    ensures Plus(Plus(x, y), y) == x
  {
    hide Plus;
    PlusAssociates(x, y, y);
    PlusCommutes(y, y);
    PlusCommutes(x, y);
  }

  lemma {:induction false} BytesUndone(s: Block)
    ensures InverseSubBytes(SubBytes(s)) == s && SubBytes(InverseSubBytes(s)) == s
  {
    hide Sub, InverseSub;
    forall k | 0 <= k < 16 ensures InverseSub(Sub(s[k])) == s[k] && Sub(InverseSub(s[k])) == s[k] {
      SubUndone(s[k]);
      SubRedone(s[k]);
    }
  }

  lemma {:induction false} Quarters(i: nat)
    ensures (4 * i) / 4 == i && (4 * i + 1) / 4 == i && (4 * i + 2) / 4 == i && (4 * i + 3) / 4 == i
    ensures (4 * i) % 4 == 0 && (4 * i + 1) % 4 == 1 && (4 * i + 2) % 4 == 2 && (4 * i + 3) % 4 == 3
  {
  }

  lemma {:induction false} Sixteenths(m: nat, r: nat)
    requires r < 4
    ensures (4 * m + r) % 16 == 4 * (m % 4) + r && (4 * (m % 4) + r) % 4 == r
  {
  }

  /** Turning by r columns and by 3r columns gets back, for the byte in row r of column q. */
  lemma {:induction false} TurnedPlace(q: nat, r: nat, m: nat, n: nat)
    requires q < 4 && r < 4 && (m + n) % 4 == 0
    ensures var a := (4 * q + r + 4 * m) % 16; a % 4 == r && (a + 4 * n) % 16 == 4 * q + r
  {
    Sixteenths(q + m, r);
    Sixteenths((q + m) % 4 + n, r);
    Around(q, m, n);
    assert 4 * q + r + 4 * m == 4 * (q + m) + r;
  }

  lemma {:induction false} Around(q: nat, m: nat, n: nat)
    requires q < 4 && (m + n) % 4 == 0
    ensures ((q + m) % 4 + n) % 4 == q
  {
    var t, j := (q + m) / 4, (m + n) / 4;
    assert (q + m) % 4 + n == q + 4 * (j - t);
  }

  lemma {:induction false} TurnedPlaces(k: nat)
    requires k < 16
    ensures var a, b := (k + 4 * (k % 4)) % 16, (k + 12 * (k % 4)) % 16;
      && a % 4 == k % 4 && b % 4 == k % 4
      && (a + 12 * (a % 4)) % 16 == k && (b + 4 * (b % 4)) % 16 == k
  {
    var q, r := k / 4, k % 4;
    TurnedPlace(q, r, r, 3 * r);
    TurnedPlace(q, r, 3 * r, r);
  }

  lemma {:induction false} RowsUndone(s: Block)
    ensures InverseShiftRows(ShiftRows(s)) == s && ShiftRows(InverseShiftRows(s)) == s
  {
    forall k | 0 <= k < 16
      ensures InverseShiftRows(ShiftRows(s))[k] == s[k] && ShiftRows(InverseShiftRows(s))[k] == s[k]
    {
      TurnedPlaces(k);
    }
  }

  lemma {:induction false} MixedColumns(s: Block, i: nat)
    requires i < 4
    ensures ColumnAt(MixColumns(s), i) == Mixed(ColumnAt(s, i))
    ensures ColumnAt(InverseMixColumns(s), i) == Unmixed(ColumnAt(s, i))
  {
    hide Mixed, Unmixed;
    Quarters(i);
  }

  lemma {:induction false} ByteOf(s: Block, k: nat)
    requires k < 16
    ensures s[k] == Byte(ColumnAt(s, k / 4), k % 4)
  {
  }

  lemma {:induction false} ColumnsUndone(s: Block)
    ensures InverseMixColumns(MixColumns(s)) == s && MixColumns(InverseMixColumns(s)) == s
  {
    hide Mixed, Unmixed, ColumnAt;
    var a, b := MixColumns(s), InverseMixColumns(s);
    forall k | 0 <= k < 16 ensures InverseMixColumns(a)[k] == s[k] && MixColumns(b)[k] == s[k] {
      MixedColumns(s, k / 4);
      MixUndone(ColumnAt(s, k / 4));
      ByteOf(s, k);
    }
  }

  lemma {:induction false} RoundsBack(s: Block, keys: Schedule, round: nat)
    requires 1 <= round <= 10
    ensures RoundsUndone(Rounds(s, keys, round), keys, round) == s
    ensures Rounds(RoundsUndone(s, keys, round), keys, round) == s
    decreases 10 - round
  {
    hide AddRoundKey, MixColumns, ShiftRows, SubBytes, InverseMixColumns, InverseShiftRows, InverseSubBytes;
    if round < 10 {
      var a, b := SubBytes(s), ShiftRows(SubBytes(s));
      var c := MixColumns(b);
      RoundsBack(AddRoundKey(c, keys, round), keys, round + 1);
      KeyUndone(c, keys, round);
      ColumnsUndone(b);
      RowsUndone(a);
      BytesUndone(s);
      RoundsBack(s, keys, round + 1);
      var d := AddRoundKey(RoundsUndone(s, keys, round + 1), keys, round);
      var e, f := InverseMixColumns(d), InverseShiftRows(InverseMixColumns(d));
      BytesUndone(f);
      RowsUndone(e);
      ColumnsUndone(d);
      KeyUndone(RoundsUndone(s, keys, round + 1), keys, round);
    }
  }

  /** Under every key schedule the cipher is a permutation of the blocks: it can be undone, and every block
      is the image of one. */
  lemma {:induction false} CipherIsPermutation(s: Block, keys: Schedule)
    ensures Decrypted(Encrypted(s, keys), keys) == s && Encrypted(Decrypted(s, keys), keys) == s
  {
    hide AddRoundKey, ShiftRows, SubBytes, InverseShiftRows, InverseSubBytes, Rounds, RoundsUndone;
    var a := AddRoundKey(s, keys, 0);
    var b := Rounds(a, keys, 1);
    KeyUndone(ShiftRows(SubBytes(b)), keys, 10);
    RowsUndone(SubBytes(b));
    BytesUndone(b);
    RoundsBack(a, keys, 1);
    KeyUndone(s, keys, 0);
    var c := AddRoundKey(s, keys, 10);
    var d := InverseSubBytes(InverseShiftRows(c));
    var e := RoundsUndone(d, keys, 1);
    KeyUndone(e, keys, 0);
    RoundsBack(d, keys, 1);
    BytesUndone(InverseShiftRows(c));
    RowsUndone(c);
    KeyUndone(s, keys, 10);
  }

  /** Different blocks are enciphered differently. */
  lemma {:induction false} CipherIsInjective(s: Block, t: Block, keys: Schedule)
    requires Encrypted(s, keys) == Encrypted(t, keys)
    ensures s == t
  {
    hide Encrypted, Decrypted;
    CipherIsPermutation(s, keys);
    CipherIsPermutation(t, keys);
  }

  // ----- The steps in place -----

  method AddRoundKeyInPlace(round: nat, state: array<bv8>, keys: array<bv8>)
    requires state.Length == 16 && keys.Length == 176 && state != keys && round <= 10
    modifies state
    ensures state[..] == AddRoundKey(old(state[..]), keys[..], round)
  {
    hide Plus;
    var i := 0;
    while i < 4
      invariant 0 <= i <= 4
      invariant forall k | 0 <= k < 16 ::
        state[k] == if k < 4 * i then Plus(old(state[k]), keys[16 * round + k]) else old(state[k])
    {
      var j := 0;
      while j < 4
        invariant 0 <= j <= 4
        invariant forall k | 0 <= k < 16 ::
          state[k] == if k < 4 * i + j then Plus(old(state[k]), keys[16 * round + k]) else old(state[k])
      {
        state[4 * i + j] := Plus(state[4 * i + j], keys[16 * round + (4 * i + j)]);
        j := j + 1;
      }
      i := i + 1;
    }
  }

  /** Rows outside, columns inside: the table is looked up once for every byte. */
  method SubBytesInPlace(state: array<bv8>)
    requires state.Length == 16
    modifies state
    ensures state[..] == SubBytes(old(state[..]))
  {
    hide Sub;
    var i := 0;
    while i < 4
      invariant 0 <= i <= 4
      invariant forall k | 0 <= k < 16 :: state[k] == if k % 4 < i then Sub(old(state[k])) else old(state[k])
    {
      var j := 0;
      while j < 4
        invariant 0 <= j <= 4
        invariant forall k | 0 <= k < 16 ::
          state[k] == if k % 4 < i || (k % 4 == i && k / 4 < j) then Sub(old(state[k])) else old(state[k])
      {
        state[4 * j + i] := Sub(state[4 * j + i]);
        j := j + 1;
      }
      i := i + 1;
    }
  }

  method TurnSecondRow(state: array<bv8>)
    requires state.Length == 16
    modifies state
    ensures state[1] == old(state[5]) && state[5] == old(state[9]) && state[9] == old(state[13])
    ensures state[13] == old(state[1])
    ensures forall k | 0 <= k < 16 && k !in {1, 5, 9, 13} :: state[k] == old(state[k])
  {
    var temp := state[1];
    state[1] := state[5];
    state[5] := state[9];
    state[9] := state[13];
    state[13] := temp;
  }

  method SwapThirdRow(state: array<bv8>)
    requires state.Length == 16
    modifies state
    ensures state[2] == old(state[10]) && state[10] == old(state[2]) && state[6] == old(state[14])
    ensures state[14] == old(state[6])
    ensures forall k | 0 <= k < 16 && k !in {2, 6, 10, 14} :: state[k] == old(state[k])
  {
    var temp := state[2];
    state[2] := state[10];
    state[10] := temp;
    temp := state[6];
    state[6] := state[14];
    state[14] := temp;
  }

  method TurnFourthRow(state: array<bv8>)
    requires state.Length == 16
    modifies state
    ensures state[3] == old(state[15]) && state[15] == old(state[11]) && state[11] == old(state[7])
    ensures state[7] == old(state[3])
    ensures forall k | 0 <= k < 16 && k !in {3, 7, 11, 15} :: state[k] == old(state[k])
  {
    var temp := state[3];
    state[3] := state[15];
    state[15] := state[11];
    state[11] := state[7];
    state[7] := temp;
  }

  method ShiftRowsInPlace(state: array<bv8>)
    requires state.Length == 16
    modifies state
    ensures state[..] == ShiftRows(old(state[..]))
  {
    hide ShiftRows;
    TurnSecondRow(state);
    SwapThirdRow(state);
    TurnFourthRow(state);
    ShiftedTable(old(state[..]));
    assert state[..] == Shifted(old(state[..]));
  }

  /** The rows turned, byte by byte. */
  function Shifted(s: Block): Block {
    [s[0], s[5], s[10], s[15], s[4], s[9], s[14], s[3], s[8], s[13], s[2], s[7], s[12], s[1], s[6], s[11]]
  }

  lemma {:induction false} ShiftedAt(s: Block, k: nat, m: nat)
    requires k < 16 && m == (k + 4 * (k % 4)) % 16
    ensures ShiftRows(s)[k] == s[m]
  {
  }

  lemma {:induction false} ShiftedTable(s: Block)
    ensures ShiftRows(s) == Shifted(s)
  {
    hide ShiftRows;
    ShiftedAt(s, 0, 0);
    ShiftedAt(s, 1, 5);
    ShiftedAt(s, 2, 10);
    ShiftedAt(s, 3, 15);
    ShiftedAt(s, 4, 4);
    ShiftedAt(s, 5, 9);
    ShiftedAt(s, 6, 14);
    ShiftedAt(s, 7, 3);
    ShiftedAt(s, 8, 8);
    ShiftedAt(s, 9, 13);
    ShiftedAt(s, 10, 2);
    ShiftedAt(s, 11, 7);
    ShiftedAt(s, 12, 12);
    ShiftedAt(s, 13, 1);
    ShiftedAt(s, 14, 6);
    ShiftedAt(s, 15, 11);
  }

  /** One column in place: its first byte is kept aside for the last one. */
  method MixColumnInPlace(state: array<bv8>, i: nat)
    requires state.Length == 16 && i < 4
    modifies state
    ensures ColumnAt(state[..], i) == Mixed(old(ColumnAt(state[..], i)))
    ensures forall k | 0 <= k < 16 && k / 4 != i :: state[k] == old(state[k])
  {
    hide XTime, Plus, Sum, MixByte;
    ghost var a, b, c, d := state[4 * i], state[4 * i + 1], state[4 * i + 2], state[4 * i + 3];
    var t := state[4 * i];
    var all := Sum(state[4 * i], state[4 * i + 1], state[4 * i + 2], state[4 * i + 3]);
    MixesByte(a, b, c, d, all);
    SumTurned(a, b, c, d);
    MixesByte(b, c, d, a, all);
    SumTurned(b, c, d, a);
    MixesByte(c, d, a, b, all);
    SumTurned(c, d, a, b);
    MixesByte(d, a, b, c, all);
    var doubled := XTime(Plus(state[4 * i], state[4 * i + 1]));
    state[4 * i] := Plus(state[4 * i], Plus(doubled, all));
    doubled := XTime(Plus(state[4 * i + 1], state[4 * i + 2]));
    state[4 * i + 1] := Plus(state[4 * i + 1], Plus(doubled, all));
    doubled := XTime(Plus(state[4 * i + 2], state[4 * i + 3]));
    state[4 * i + 2] := Plus(state[4 * i + 2], Plus(doubled, all));
    doubled := XTime(Plus(state[4 * i + 3], t));
    state[4 * i + 3] := Plus(state[4 * i + 3], Plus(doubled, all));
  }

  lemma {:induction false} MixesByte(a: bv8, b: bv8, c: bv8, d: bv8, all: bv8)
    requires all == Sum(a, b, c, d)
    ensures Plus(a, Plus(XTime(Plus(a, b)), all)) == MixByte(a, b, c, d)
  {
    hide XTime, Plus, Sum;
    PlusAssociates(a, XTime(Plus(a, b)), all);
  }

  method MixColumnsInPlace(state: array<bv8>)
    requires state.Length == 16
    modifies state
    ensures state[..] == MixColumns(old(state[..]))
  {
    hide Mixed;
    var i := 0;
    while i < 4
      invariant 0 <= i <= 4
      invariant forall k | 0 <= k < 16 :: state[k] == if k / 4 < i then MixColumns(old(state[..]))[k] else old(state[k])
    {
      ghost var before := state[..];
      ColumnKept(old(state[..]), before, i);
      MixColumnInPlace(state, i);
      forall k | 0 <= k < 16 && k / 4 == i ensures state[k] == MixColumns(old(state[..]))[k] {
        ByteOf(state[..], k);
      }
      i := i + 1;
    }
  }

  lemma {:induction false} ColumnKept(a: Block, b: Block, i: nat)
    requires i < 4 && forall k | 0 <= k < 16 && k / 4 >= i :: b[k] == a[k]
    ensures ColumnAt(b, i) == ColumnAt(a, i)
  {
    Quarters(i);
  }

  /** The cipher on the state array. */
  method Cipher(state: array<bv8>, keys: array<bv8>)
    requires state.Length == 16 && keys.Length == 176 && state != keys
    modifies state
    ensures state[..] == Encrypted(old(state[..]), keys[..])
  {
    hide AddRoundKey, ShiftRows, SubBytes, MixColumns;
    ghost var k := keys[..];
    AddRoundKeyInPlace(0, state, keys);
    ghost var a := state[..];
    var round := 1;
    while round < 10
      invariant 1 <= round <= 10
      invariant Rounds(state[..], k, round) == Rounds(a, k, 1)
    {
      SubBytesInPlace(state);
      ShiftRowsInPlace(state);
      MixColumnsInPlace(state);
      AddRoundKeyInPlace(round, state, keys);
      round := round + 1;
    }
    SubBytesInPlace(state);
    ShiftRowsInPlace(state);
    AddRoundKeyInPlace(10, state, keys);
  }
}
