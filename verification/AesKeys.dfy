/** Which key bytes enter the cipher where, and the key schedule. */
module AesKeys {
  import opened AesTable
  import opened Aes

  // ---- The cipher, round by round ---------------------------------------------------------------

  /** The bytewise sum. */
  function Xored(s: Block, t: Block): Block {
    seq(16, k requires 0 <= k < 16 => Plus(s[k], t[k]))
  }

  /** Bytes 16r to 16r + 15 of the schedule. */
  function RoundKey(keys: Schedule, r: nat): Block
    requires r <= 10
  {
    keys[16 * r..16 * r + 16]
  }

  /** The state after the round key `r` has been added, as section 5.1 of FIPS 197 has it: the last round does not
      mix the columns. */
  function StateAfter(s: Block, keys: Schedule, r: nat): Block
    requires r <= 10
  {
    if r == 0 then Xored(s, RoundKey(keys, 0))
    else
      var t := ShiftRows(SubBytes(StateAfter(s, keys, r - 1)));
      Xored(if r < 10 then MixColumns(t) else t, RoundKey(keys, r))
  }

  lemma {:induction false} KeyAdded(s: Block, keys: Schedule, r: nat)
    requires r <= 10
    ensures AddRoundKey(s, keys, r) == Xored(s, RoundKey(keys, r))
  {
    hide Plus;
  }

  lemma {:induction false} RoundsFrom(s: Block, keys: Schedule, r: nat)
    requires 1 <= r <= 10
    ensures Rounds(StateAfter(s, keys, r - 1), keys, r) == StateAfter(s, keys, 9)
    decreases 10 - r
  {
    hide ShiftRows, SubBytes, MixColumns, Xored, RoundKey, AddRoundKey;
    if r < 10 {
      KeyAdded(MixColumns(ShiftRows(SubBytes(StateAfter(s, keys, r - 1)))), keys, r);
      RoundsFrom(s, keys, r + 1);
    }
  }

  /** The cipher is the state after the last round. */
  lemma {:induction false} CipherIsLastState(s: Block, keys: Schedule)
    ensures Encrypted(s, keys) == StateAfter(s, keys, 10)
  {
    hide ShiftRows, SubBytes, MixColumns, Xored, RoundKey, AddRoundKey, Rounds;
    KeyAdded(s, keys, 0);
    RoundsFrom(s, keys, 1);
    KeyAdded(ShiftRows(SubBytes(StateAfter(s, keys, 9))), keys, 10);
  }

  // ---- Where the key bytes enter ----------------------------------------------------------------

  lemma {:induction false} SameRoundKey(a: Schedule, b: Schedule, r: nat)
    requires r <= 10 && a[..16 * (r + 1)] == b[..16 * (r + 1)]
    ensures RoundKey(a, r) == RoundKey(b, r)
    ensures a[..16 * r] == b[..16 * r]
  {
    assert RoundKey(a, r) == a[..16 * (r + 1)][16 * r..];
    assert RoundKey(b, r) == b[..16 * (r + 1)][16 * r..];
    assert a[..16 * r] == a[..16 * (r + 1)][..16 * r];
    assert b[..16 * r] == b[..16 * (r + 1)][..16 * r];
  }

  /** The state after round `r` depends on the first 16(r + 1) bytes of the schedule only. */
  lemma {:induction false} DependsOnPrefix(s: Block, a: Schedule, b: Schedule, r: nat)
    requires r <= 10 && a[..16 * (r + 1)] == b[..16 * (r + 1)]
    ensures StateAfter(s, a, r) == StateAfter(s, b, r)
  {
    hide ShiftRows, SubBytes, MixColumns, Xored, RoundKey;
    SameRoundKey(a, b, r);
    if r > 0 {
      DependsOnPrefix(s, a, b, r - 1);
    }
  }

  lemma {:induction false} Differs(s: Block, a: Block, b: Block)
    ensures Xored(Xored(s, a), Xored(s, b)) == Xored(a, b)
  {
    hide Plus;
    forall k | 0 <= k < 16
      ensures Plus(Plus(s[k], a[k]), Plus(s[k], b[k])) == Plus(a[k], b[k])
    {
      PlusCommutes(s[k], a[k]);
      MiddleDrops(a[k], s[k], b[k]);
    }
  }

  /** Schedules that agree before round key `r`: the states after it differ by what the round keys differ by.  With
      `r` being ten these are the ciphertexts. */
  lemma {:induction false} EntersByItsBytes(s: Block, a: Schedule, b: Schedule, r: nat)
    requires r <= 10 && a[..16 * r] == b[..16 * r]
    ensures Xored(StateAfter(s, a, r), StateAfter(s, b, r)) == Xored(RoundKey(a, r), RoundKey(b, r))
    ensures r == 10 ==> Xored(Encrypted(s, a), Encrypted(s, b)) == Xored(a[160..176], b[160..176])
  {
    hide ShiftRows, SubBytes, MixColumns, Xored, Encrypted;
    CipherIsLastState(s, a);
    CipherIsLastState(s, b);
    if r == 0 {
      Differs(s, RoundKey(a, 0), RoundKey(b, 0));
    } else {
      assert 16 * r == 16 * ((r - 1) + 1);
      DependsOnPrefix(s, a, b, r - 1);
      var t := ShiftRows(SubBytes(StateAfter(s, a, r - 1)));
      Differs(if r < 10 then MixColumns(t) else t, RoundKey(a, r), RoundKey(b, r));
    }
  }

  lemma {:induction false} PartOfPart(a: seq<bv8>, lo: nat, hi: nat, i: nat, j: nat)
    requires lo <= hi <= |a| && i <= j <= hi - lo
    ensures a[lo..hi][i..j] == a[lo + i..lo + j]
  {
    forall k | 0 <= k < j - i
      ensures a[lo..hi][i..j][k] == a[lo + i..lo + j][k]
    {
      assert a[lo..hi][i..j][k] == a[lo..hi][i + k] == a[lo + (i + k)];
    }
  }

  lemma {:induction false} SameLater(s: Block, t: Block, a: Schedule, b: Schedule, r: nat)
    requires r <= 10 && a[16..] == b[16..] && StateAfter(s, a, 0) == StateAfter(t, b, 0)
    ensures StateAfter(s, a, r) == StateAfter(t, b, r)
  {
    hide ShiftRows, SubBytes, MixColumns, Xored;
    if r > 0 {
      SameLater(s, t, a, b, r - 1);
      PartOfPart(a, 16, 176, 16 * (r - 1), 16 * r);
      PartOfPart(b, 16, 176, 16 * (r - 1), 16 * r);
      assert a[16..176] == a[16..] && b[16..176] == b[16..];
    }
  }

  lemma {:induction false} XoredAssociates(s: Block, t: Block, u: Block)
    ensures Xored(Xored(s, t), u) == Xored(s, Xored(t, u))
  {
    hide Plus;
    forall k | 0 <= k < 16
      ensures Plus(Plus(s[k], t[k]), u[k]) == Plus(s[k], Plus(t[k], u[k]))
    {
      PlusAssociates(s[k], t[k], u[k]);
    }
  }

  /** Changing the first sixteen bytes of the schedule is the same as changing the block. */
  lemma {:induction false} FirstKeyIsWhitening(s: Block, d: Block, keys: Schedule)
    ensures var changed: Schedule := Xored(d, keys[..16]) + keys[16..];
      Encrypted(s, changed) == Encrypted(Xored(s, d), keys)
  {
    hide ShiftRows, SubBytes, MixColumns, Xored, Encrypted;
    var changed: Schedule := Xored(d, keys[..16]) + keys[16..];
    CipherIsLastState(s, changed);
    CipherIsLastState(Xored(s, d), keys);
    assert RoundKey(changed, 0) == Xored(d, keys[..16]) && RoundKey(keys, 0) == keys[..16];
    assert changed[16..] == keys[16..];
    XoredAssociates(s, d, keys[..16]);
    SameLater(s, Xored(s, d), changed, keys, 10);
  }

  /** Row r is turned left by r columns; the state is stored column by column. */
  lemma {:induction false} RowsTurned(s: Block, r: nat, c: nat)
    requires r < 4 && c < 4
    ensures ShiftRows(s)[4 * c + r] == s[4 * ((c + r) % 4) + r]
  {
    hide ShiftRows;
    Quarters(c);
    Sixteenths(c + r, r);
    ShiftedAt(s, 4 * c + r, 4 * ((c + r) % 4) + r);
  }

  lemma {:induction false} ProductByte(x: Column, r: nat)
    requires r < 4
    ensures Byte(MatrixProduct(x), r) ==
      Row(Byte(x, r), Byte(x, (r + 1) % 4), Byte(x, (r + 2) % 4), Byte(x, (r + 3) % 4))
  {
    hide Row;
  }

  lemma {:induction false} ColumnByte(s: Block, c: nat, r: nat)
    requires c < 4 && r < 4
    ensures Byte(ColumnAt(s, c), r) == s[4 * c + r]
  {
  }

  /** Every byte of a mixed column is the product of a row of the matrix with the column. */
  lemma {:induction false} ColumnsMixed(s: Block, c: nat, r: nat)
    requires c < 4 && r < 4
    ensures MixColumns(s)[4 * c + r] ==
      Sum(Times(2, s[4 * c + r]), Times(3, s[4 * c + (r + 1) % 4]), Times(1, s[4 * c + (r + 2) % 4]),
          Times(1, s[4 * c + (r + 3) % 4]))
  {
    hide MixColumns, Times, Mixed, MatrixProduct, Sum, ColumnAt, Byte;
    MixedColumns(s, c);
    MixedIsMatrixProduct(ColumnAt(s, c));
    ColumnByte(MixColumns(s), c, r);
    ProductByte(ColumnAt(s, c), r);
    ColumnByte(s, c, r);
    ColumnByte(s, c, (r + 1) % 4);
    ColumnByte(s, c, (r + 2) % 4);
    ColumnByte(s, c, (r + 3) % 4);
  }

  // ---- The key schedule -------------------------------------------------------------------------

  /** The table of round constants. */
  function RoundConstant(i: nat): bv8
    requires i <= 10
  {
    if i == 0 then 0x8d else if i == 1 then 0x01 else if i == 2 then 0x02 else if i == 3 then 0x04 else
    if i == 4 then 0x08 else if i == 5 then 0x10 else if i == 6 then 0x20 else if i == 7 then 0x40 else
    if i == 8 then 0x80 else if i == 9 then 0x1b else 0x36
  }

  /** They are the powers of x in the field. */
  lemma {:induction false} ConstantsArePowers(i: nat)
    requires 1 <= i < 10
    ensures RoundConstant(1) == 1 && RoundConstant(i + 1) == Times(2, RoundConstant(i))
  {
    hide Times;
    XTimeIsTimesTwo(RoundConstant(i));
  }

  type Four = s: seq<bv8> | |s| == 4 witness [0, 0, 0, 0]

  /** Word i of a sequence of bytes. */
  function WordAt(b: seq<bv8>, i: nat): Four
    requires 4 * i + 4 <= |b|
  {
    b[4 * i..4 * i + 4]
  }

  lemma {:induction false} WordBytes(b: seq<bv8>, i: nat)
    requires 4 * i + 4 <= |b|
    ensures WordAt(b, i) == [b[4 * i], b[4 * i + 1], b[4 * i + 2], b[4 * i + 3]]
  {
  }

  /** What is added to word i - 4 to make word i, from word i - 1. */
  function Temp(w: Four, i: nat): Four
    requires i < 44
  {
    if i % 4 == 0 then [Plus(Sub(w[1]), RoundConstant(i / 4)), Sub(w[2]), Sub(w[3]), Sub(w[0])] else w
  }

  function Added(a: Four, b: Four): Four {
    [Plus(a[0], b[0]), Plus(a[1], b[1]), Plus(a[2], b[2]), Plus(a[3], b[3])]
  }

  /** The first n words of the schedule. */
  function Expanded(key: Block, n: nat): (r: seq<bv8>)
    requires 4 <= n <= 44
    ensures |r| == 4 * n && r[..16] == key
  {
    if n == 4 then key
    else
      var e := Expanded(key, n - 1);
      e + Added(WordAt(e, n - 5), Temp(WordAt(e, n - 2), n - 1))
  }

  function ScheduleOf(key: Block): Schedule {
    Expanded(key, 44)
  }

  lemma {:induction false} WordsKept(key: Block, m: nat, n: nat, i: nat)
    requires 4 <= m <= n <= 44 && i < m
    ensures WordAt(Expanded(key, n), i) == WordAt(Expanded(key, m), i)
    decreases n
  {
    hide Added, Temp;
    if m < n {
      WordsKept(key, m, n - 1, i);
    }
  }

  lemma {:induction false} NewWord(key: Block, i: nat)
    requires 4 <= i < 44
    ensures WordAt(Expanded(key, i + 1), i) ==
      Added(WordAt(Expanded(key, i), i - 4), Temp(WordAt(Expanded(key, i), i - 1), i))
  {
    hide Added, Temp;
  }

  lemma {:induction false} ScheduleWords(key: Block, i: nat)
    requires 4 <= i < 44
    ensures var w := ScheduleOf(key);
      WordAt(w, i) == Added(WordAt(w, i - 4), Temp(WordAt(w, i - 1), i))
  {
    hide Added, Temp, Expanded, WordAt;
    NewWord(key, i);
    WordsKept(key, i + 1, 44, i);
    WordsKept(key, i, 44, i - 4);
    WordsKept(key, i, 44, i - 1);
  }

  /** The schedule as section 5.2 of FIPS 197 defines it: it starts with the key; each later byte is the sum of the
      one sixteen before and the one four before, which at the start of a round key is the substitute of the next
      byte of that word in turn, with the round constant in the first byte. */
  lemma {:induction false} ScheduleBytes(key: Block, i: nat)
    requires 4 <= i < 44
    ensures ScheduleOf(key)[..16] == key
    ensures var (w, p) := (ScheduleOf(key), 4 * i);
      if i % 4 != 0 then forall j | p <= j < p + 4 :: w[j] == Plus(w[j - 16], w[j - 4])
      else
        && w[p] == Plus(w[p - 16], Plus(Sub(w[p - 3]), RoundConstant(i / 4)))
        && w[p + 1] == Plus(w[p - 15], Sub(w[p - 2])) && w[p + 2] == Plus(w[p - 14], Sub(w[p - 1]))
        && w[p + 3] == Plus(w[p - 13], Sub(w[p - 4]))
  {
    hide Plus, Sub, RoundConstant, Expanded, WordAt;
    ScheduleWords(key, i);
    WordBytes(ScheduleOf(key), i);
    WordBytes(ScheduleOf(key), i - 4);
    WordBytes(ScheduleOf(key), i - 1);
  }

  lemma {:induction false} AddedBack(a: Four, b: Four, t: Four)
    requires Added(a, t) == Added(b, t)
    ensures a == b
  {
    hide Plus;
    forall k | 0 <= k < 4
      ensures a[k] == b[k]
    {
      XorTwice(a[k], t[k]);
      XorTwice(b[k], t[k]);
      assert Plus(a[k], t[k]) == Added(a, t)[k] == Added(b, t)[k] == Plus(b[k], t[k]);
    }
  }

  /** Four words in a row decide the word before them. */
  lemma {:induction false} WordBefore(k: Block, l: Block, i: nat)
    requires 4 <= i < 44
    requires var (v, w) := (ScheduleOf(k), ScheduleOf(l));
      WordAt(v, i) == WordAt(w, i) && WordAt(v, i - 1) == WordAt(w, i - 1)
    ensures WordAt(ScheduleOf(k), i - 4) == WordAt(ScheduleOf(l), i - 4)
  {
    hide Added, Temp, ScheduleOf, WordAt;
    ScheduleWords(k, i);
    ScheduleWords(l, i);
    AddedBack(WordAt(ScheduleOf(k), i - 4), WordAt(ScheduleOf(l), i - 4), Temp(WordAt(ScheduleOf(k), i - 1), i));
  }

  lemma {:induction false} WordsBefore(k: Block, l: Block, j: nat)
    requires j <= 40
    requires forall i | j <= i < j + 4 :: WordAt(ScheduleOf(k), i) == WordAt(ScheduleOf(l), i)
    ensures forall i | 0 <= i < 4 :: WordAt(ScheduleOf(k), i) == WordAt(ScheduleOf(l), i)
    decreases j
  {
    hide ScheduleOf, WordAt;
    if j > 0 {
      WordBefore(k, l, j + 3);
      WordsBefore(k, l, j - 1);
    }
  }

  /** Any one round key decides the key. */
  lemma {:induction false} RoundKeyDecides(k: Block, l: Block, r: nat)
    requires r <= 10 && RoundKey(ScheduleOf(k), r) == RoundKey(ScheduleOf(l), r)
    ensures k == l
  {
    hide ScheduleOf;
    forall i | 4 * r <= i < 4 * r + 4
      ensures WordAt(ScheduleOf(k), i) == WordAt(ScheduleOf(l), i)
    {
      WordInKey(ScheduleOf(k), r, i);
      WordInKey(ScheduleOf(l), r, i);
    }
    WordsBefore(k, l, 4 * r);
    KeyFirst(k);
    KeyFirst(l);
    FourWords(ScheduleOf(k));
    FourWords(ScheduleOf(l));
  }

  lemma {:induction false} WordInKey(w: Schedule, r: nat, i: nat)
    requires r <= 10 && 4 * r <= i < 4 * r + 4
    ensures WordAt(w, i) == RoundKey(w, r)[4 * (i - 4 * r)..4 * (i - 4 * r) + 4]
  {
    PartOfPart(w, 16 * r, 16 * r + 16, 4 * (i - 4 * r), 4 * (i - 4 * r) + 4);
  }

  lemma {:induction false} KeyFirst(k: Block)
    ensures ScheduleOf(k)[..16] == k
  {
    hide Expanded;
  }

  lemma {:induction false} FourWords(w: Schedule)
    ensures w[..16] == WordAt(w, 0) + WordAt(w, 1) + WordAt(w, 2) + WordAt(w, 3)
  {
  }

  /** The loop that fills the round keys, word by word. */
  method KeyExpansion(roundKey: array<bv8>, key: array<bv8>)
    requires roundKey.Length == 176 && key.Length == 16 && roundKey != key
    modifies roundKey
    ensures roundKey[..] == ScheduleOf(key[..])
  {
    hide Sub, Plus, Expanded, RoundConstant;
    var i := 0;
    while i < 4
      invariant 0 <= i <= 4 && roundKey[..4 * i] == key[..4 * i]
    {
      CopyWord(roundKey, key, i);
      i := i + 1;
    }
    assert key[..16] == key[..];
    FirstWords(key[..]);
    while i < 44
      invariant 4 <= i <= 44 && roundKey[..4 * i] == Expanded(key[..], i)
    {
      ExpandWord(roundKey, key[..], i);
      i := i + 1;
    }
    assert roundKey[..176] == roundKey[..];
  }

  method CopyWord(roundKey: array<bv8>, key: array<bv8>, i: nat)
    requires roundKey.Length == 176 && key.Length == 16 && roundKey != key && i < 4
    requires roundKey[..4 * i] == key[..4 * i]
    modifies roundKey
    ensures roundKey[..4 * (i + 1)] == key[..4 * (i + 1)]
  {
    ghost var was := roundKey[..4 * i];
    roundKey[4 * i] := key[4 * i];
    roundKey[4 * i + 1] := key[4 * i + 1];
    roundKey[4 * i + 2] := key[4 * i + 2];
    roundKey[4 * i + 3] := key[4 * i + 3];
    assert roundKey[..4 * i] == was;
  }

  lemma {:induction false} FirstWords(key: Block)
    ensures Expanded(key, 4) == key
  {
  }

  /** The word before, changed at the start of a round key. */
  method TempWord(roundKey: array<bv8>, i: nat) returns (a: bv8, b: bv8, c: bv8, d: bv8)
    requires roundKey.Length == 176 && 4 <= i < 44
    ensures [a, b, c, d] == Temp(WordAt(roundKey[..4 * i], i - 1), i)
  {
    hide Sub, Plus, RoundConstant, WordAt;
    var k := (i - 1) * 4;
    a, b, c, d := roundKey[k], roundKey[k + 1], roundKey[k + 2], roundKey[k + 3];
    WordBytes(roundKey[..4 * i], i - 1);
    if i % 4 == 0 {
      a, b, c, d := b, c, d, a;
      a, b, c, d := Sub(a), Sub(b), Sub(c), Sub(d);
      a := Plus(a, RoundConstant(i / 4));
    }
  }

  /** One word, on top of the word four before. */
  method ExpandWord(roundKey: array<bv8>, ghost key: Block, i: nat)
    requires roundKey.Length == 176 && 4 <= i < 44 && roundKey[..4 * i] == Expanded(key, i)
    modifies roundKey
    ensures roundKey[..4 * (i + 1)] == Expanded(key, i + 1)
  {
    hide Plus, Expanded, WordAt, Temp;
    ghost var was := roundKey[..4 * i];
    var a, b, c, d := TempWord(roundKey, i);
    ExpandedMore(key, i);
    WordBytes(was, i - 4);
    var j, k := i * 4, (i - 4) * 4;
    roundKey[j] := Plus(roundKey[k], a);
    roundKey[j + 1] := Plus(roundKey[k + 1], b);
    roundKey[j + 2] := Plus(roundKey[k + 2], c);
    roundKey[j + 3] := Plus(roundKey[k + 3], d);
    assert roundKey[..4 * i] == was;
    assert roundKey[..4 * (i + 1)] == was + roundKey[4 * i..4 * i + 4];
  }

  lemma {:induction false} ExpandedMore(key: Block, i: nat)
    requires 4 <= i < 44
    ensures Expanded(key, i + 1) ==
      Expanded(key, i) + Added(WordAt(Expanded(key, i), i - 4), Temp(WordAt(Expanded(key, i), i - 1), i))
  {
  }

  /** One block under a key: the schedule in a buffer of its own, and the cipher. */
  method EncryptBlock(key: array<bv8>, block: array<bv8>)
    requires key.Length == 16 && block.Length == 16 && key != block
    modifies block
    ensures block[..] == Encrypted(old(block[..]), ScheduleOf(key[..]))
  {
    hide Encrypted, ScheduleOf;
    var roundKeys := new bv8[176];
    KeyExpansion(roundKeys, key);
    Cipher(block, roundKeys);
  }
}
