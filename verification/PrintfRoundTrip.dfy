/** What formatted output spells: a plain number in any base, whatever the padding, and what reading the
    buffer filled for `%u` gives, whether the number fitted or not. */
module PrintfRoundTrip {
  import opened Printf
  import opened Residues
  import Thumb

  // ----- Numbers in any base -----

  predicate IsDigitIn(c: char, base: nat) {
    ('0' <= c <= '9' && c as int - '0' as int < base) ||
    ('a' <= c <= 'f' && c as int - 'a' as int + 10 < base) ||
    ('A' <= c <= 'F' && c as int - 'A' as int + 10 < base)
  }

  function DigitValue(c: char, base: nat): (d: nat)
    requires IsDigitIn(c, base)
    ensures d < base
  {
    if c <= '9' then c as int - '0' as int
    else if c <= 'F' then c as int - 'A' as int + 10
    else c as int - 'a' as int + 10
  }

  predicate AllDigits(s: string, base: nat) {
    forall c | c in s :: IsDigitIn(c, base)
  }

  function Spelled(s: string, base: nat): nat
    requires AllDigits(s, base)
  {
    if s == [] then 0
    else
      assert s[|s| - 1] in s;
      Spelled(s[..|s| - 1], base) * base + DigitValue(s[|s| - 1], base)
  }

  function PowerOf(base: nat, n: nat): (r: nat)
    requires base > 0
    ensures r > 0
  {
    if n == 0 then 1 else base * PowerOf(base, n - 1)
  }

  lemma {:induction false} PowerGrows(base: nat, n: nat)
    requires base >= 2
    ensures Thumb.Pow2(n) <= PowerOf(base, n)
  {
    if n > 0 {
      PowerGrows(base, n - 1);
      var a, b := Thumb.Pow2(n - 1), PowerOf(base, n - 1);
      assert base * b >= 2 * b;
    }
  }

  lemma {:induction false} DigitIs(d: nat, base: nat, uppercase: bool)
    requires d < base <= 16
    ensures IsDigitIn(DigitChar(d, uppercase), base) && DigitValue(DigitChar(d, uppercase), base) == d
  {
  }

  /** Dividing takes one digit off, and off the bound. */
  lemma {:induction false} Quotient(value: nat, base: nat, bound: nat)
    requires base >= 2
    ensures value == value / base * base + value % base
    ensures value < base * bound ==> value / base < bound
  {
    Divided(value, base);
    if value / base >= bound {
      AtLeast(base, value / base, bound);
    }
  }

  /** One more digit at the end. */
  lemma {:induction false} SpelledMore(s: string, c: char, base: nat)
    requires AllDigits(s, base) && IsDigitIn(c, base)
    ensures AllDigits(s + [c], base) && Spelled(s + [c], base) == Spelled(s, base) * base + DigitValue(c, base)
  {
    hide IsDigitIn, DigitValue;
    assert (s + [c])[..|s|] == s;
  }

  lemma {:induction false} ReversedFront(c: char, s: string)
    ensures Reversed([c] + s) == Reversed(s) + [c]
  {
  }

  lemma {:induction false} RoomFor(value: nat, base: nat, room: nat)
    requires 2 <= base && room > 0 && value < PowerOf(base, room)
    ensures 0 <= value / base < PowerOf(base, room - 1)
    ensures value / base != 0 ==> room > 1
  {
    Quotient(value, base, PowerOf(base, room - 1));
  }

  lemma {:induction false} NothingSpelled(base: nat)
    ensures Reversed([]) == [] && AllDigits([], base) && Spelled([], base) == 0
  {
  }

  /** The lowest digit before digits that, reversed, spell the quotient. */
  lemma {:induction false} SpelledOn(value: nat, base: nat, uppercase: bool, rest: string)
    requires 2 <= base <= 16
    requires AllDigits(Reversed(rest), base) && Spelled(Reversed(rest), base) == value / base
    ensures var t := Reversed([DigitChar(value % base, uppercase)] + rest);
      AllDigits(t, base) && Spelled(t, base) == value
  {
    hide DigitChar, DigitValue, IsDigitIn, Reversed, AllDigits, Spelled;
    Divided(value, base);
    var c := DigitChar(value % base, uppercase);
    DigitIs(value % base, base, uppercase);
    ReversedFront(c, rest);
    SpelledMore(Reversed(rest), c, base);
  }

  /** The digits of a number with room for them, reversed, spell the number in their base. */
  lemma {:induction false} DigitsSpell(value: nat, base: nat, uppercase: bool, room: nat)
    requires 2 <= base <= 16 && room > 0 && value < PowerOf(base, room)
    ensures var t := Reversed(Digits(value, base, uppercase, room)); AllDigits(t, base) && Spelled(t, base) == value
    decreases room
  {
    hide Digits, Reversed, AllDigits, Spelled, PowerOf;
    OneMoreDigit(value, base, uppercase, room);
    RoomFor(value, base, room);
    var q := value / base;
    if q == 0 {
      NothingSpelled(base);
      SpelledOn(value, base, uppercase, []);
    } else {
      DigitsSpell(q, base, uppercase, room - 1);
      SpelledOn(value, base, uppercase, Digits(q, base, uppercase, room - 1));
    }
  }

  lemma {:induction false} OnlyZeros(n: nat, base: nat)
    requires base >= 2
    ensures AllDigits(Repeat('0', n), base) && Spelled(Repeat('0', n), base) == 0
  {
    if n == 0 {
      NothingSpelled(base);
    } else {
      OnlyZeros(n - 1, base);
      assert Repeat('0', n) == Repeat('0', n - 1) + ['0'];
      SpelledMore(Repeat('0', n - 1), '0', base);
    }
  }

  /** Zeros in front spell nothing more. */
  lemma {:induction false} ZerosSpell(n: nat, s: string, base: nat)
    requires AllDigits(s, base) && base >= 2
    ensures AllDigits(Repeat('0', n) + s, base) && Spelled(Repeat('0', n) + s, base) == Spelled(s, base)
    decreases |s|
  {
    hide Spelled, IsDigitIn, DigitValue;
    if s == [] {
      assert Repeat('0', n) + s == Repeat('0', n);
      OnlyZeros(n, base);
      NothingSpelled(base);
    } else {
      var k := |s| - 1;
      assert s == s[..k] + [s[k]];
      assert forall c | c in s[..k] :: c in s;
      assert s[k] in s;
      ZerosSpell(n, s[..k], base);
      assert Repeat('0', n) + s == (Repeat('0', n) + s[..k]) + [s[k]];
      SpelledMore(Repeat('0', n) + s[..k], s[k], base);
      SpelledMore(s[..k], s[k], base);
    }
  }

  lemma {:induction false} ReversedZeros(b: string, n: nat)
    ensures exists k: nat :: Reversed(Zeros(b, n)) == Repeat('0', k) + Reversed(b)
  {
    var k := (if n < NTOA_SIZE then n else NTOA_SIZE) - |b|;
    var m: nat := if k > 0 then k else 0;
    assert Repeat('0', k) == Repeat('0', m);
    assert Reversed(Zeros(b, n)) == Repeat('0', m) + Reversed(b);
  }

  lemma {:induction false} ZerosKeep(b: string, n: nat, base: nat)
    requires AllDigits(Reversed(b), base) && base >= 2
    ensures var t := Reversed(Zeros(b, n)); AllDigits(t, base) && Spelled(t, base) == Spelled(Reversed(b), base)
  {
    hide Zeros, Reversed, Spelled, AllDigits;
    ReversedZeros(b, n);
    var k: nat :| Reversed(Zeros(b, n)) == Repeat('0', k) + Reversed(b);
    ZerosSpell(k, Reversed(b), base);
  }

  lemma {:induction false} PlainNumber(value: Word, base: nat, prec: nat, width: nat, f: Flags)
    requires !f.left && !f.plus && !f.space && !f.hash && 2 <= base <= 16
    ensures var b := if !f.precision || value != 0 then Digits(value, base, f.uppercase, NTOA_SIZE) else [];
      NumberDigits(value, false, base, prec, width, f) ==
        if f.zeropad then Zeros(Zeros(b, prec), width) else Zeros(b, prec)
  {
    hide Digits, Zeros;
  }

  lemma {:induction false} PlainDigits(value: Word, base: nat, prec: nat, width: nat, f: Flags)
    requires !f.left && !f.plus && !f.space && !f.hash && 2 <= base <= 16
    ensures var t := Reversed(NumberDigits(value, false, base, prec, width, f));
      AllDigits(t, base) && Spelled(t, base) == value
  {
    hide Digits, Zeros, Spelled, AllDigits, Reversed, NumberDigits, PowerOf;
    PlainNumber(value, base, prec, width, f);
    var b := if !f.precision || value != 0 then Digits(value, base, f.uppercase, NTOA_SIZE) else [];
    if !f.precision || value != 0 {
      Thumb.Pow2Word();
      PowerGrows(base, NTOA_SIZE);
      DigitsSpell(value, base, f.uppercase, NTOA_SIZE);
    } else {
      NothingSpelled(base);
    }
    ZerosKeep(b, prec, base);
    if f.zeropad {
      ZerosKeep(Zeros(b, prec), width, base);
    }
  }

  /** A plain number in any base, padded with zeros or spaces, spells its value behind the spaces. */
  lemma {:induction false} TextSpells(value: Word, base: nat, prec: nat, width: nat, f: Flags)
    requires !f.left && !f.plus && !f.space && !f.hash && 2 <= base <= 16
    ensures var t := NumberText(value, false, base, prec, width, f);
      exists spaces: nat :: spaces <= |t| && t[..spaces] == Repeat(' ', spaces) &&
        AllDigits(t[spaces..], base) && Spelled(t[spaces..], base) == value
  {
    hide NumberDigits, Spelled, AllDigits, Reversed;
    var d := NumberDigits(value, false, base, prec, width, f);
    PlainDigits(value, base, prec, width, f);
    var pad := Repeat(' ', if !f.zeropad then width - |d| else 0);
    var t := NumberText(value, false, base, prec, width, f);
    assert t == pad + Reversed(d);
    assert t[|pad|..] == Reversed(d);
    assert t[..|pad|] == pad == Repeat(' ', |pad|);
  }

  // ----- Reading -----

  lemma {:induction false} DecimalDigit(c: char)
    requires IsDigitIn(c, 10)
    ensures IsDigit(c) && Value(c) == DigitValue(c, 10)
  {
  }

  lemma {:induction false} ReadOne(s: string, k: nat, so: Word)
    requires k < |s| && IsDigit(s[k])
    ensures ReadFrom(s, k, so) == ReadFrom(s, k + 1, (so * 10 + Value(s[k])) % WORD_LIMIT)
  {
  }

  /** Reading digits gives the number they spell, modulo 2^32. */
  lemma {:induction false} ReadSpelled(s: string, k: nat)
    requires k <= |s| && AllDigits(s, 10) && AllDigits(s[..k], 10)
    ensures ReadFrom(s, 0, 0) == ReadFrom(s, k, Spelled(s[..k], 10) % WORD_LIMIT)
  {
    hide IsDigit, Value, IsDigitIn, ReadFrom, Spelled;
    if k == 0 {
      assert s[..0] == [];
      NothingSpelled(10);
    } else {
      assert s[..k] == s[..k - 1] + [s[k - 1]];
      assert s[k - 1] in s;
      ReadSpelled(s, k - 1);
      DecimalDigit(s[k - 1]);
      ReadOne(s, k - 1, Spelled(s[..k - 1], 10) % WORD_LIMIT);
      SpelledMore(s[..k - 1], s[k - 1], 10);
      TenTimes(Spelled(s[..k - 1], 10), Value(s[k - 1]));
    }
  }

  lemma {:induction false} TenTimes(a: nat, d: nat)
    ensures (a % WORD_LIMIT * 10 + d) % WORD_LIMIT == (a * 10 + d) % WORD_LIMIT
  {
    var q := a / WORD_LIMIT;
    assert a == WORD_LIMIT * q + a % WORD_LIMIT;
    assert a * 10 + d == WORD_LIMIT * (10 * q) + (a % WORD_LIMIT * 10 + d);
  }

  lemma {:induction false} ReadAll(s: string)
    requires AllDigits(s, 10) && Spelled(s, 10) < WORD_LIMIT
    ensures ReadFrom(s, 0, 0) == (Spelled(s, 10), |s|)
  {
    assert s[..|s|] == s;
    ReadSpelled(s, |s|);
  }

  lemma {:induction false} ReadBehind(a: string, s: string, i: nat, so: Word)
    requires i <= |s|
    ensures ReadFrom(a + s, |a| + i, so) == (ReadFrom(s, i, so).0, |a| + ReadFrom(s, i, so).1)
    decreases |s| - i
  {
    if i < |s| && IsDigit(s[i]) {
      ReadBehind(a, s, i + 1, (so * 10 + Value(s[i])) % WORD_LIMIT);
    }
  }

  /** Decimal output of an unsigned number, padded with zeros or spaces as the flags say, reads back as
      the number, from behind the spaces to the end. */
  lemma {:induction false} DecimalReadsBack(value: Word, prec: nat, width: nat, f: Flags)
    requires !f.left && !f.plus && !f.space && !f.hash
    ensures var t := NumberText(value, false, 10, prec, width, f);
      exists spaces: nat ::
        spaces <= |t| && t[..spaces] == Repeat(' ', spaces) && ReadFrom(t, spaces, 0) == (value, |t|)
  {
    hide NumberText, Spelled, AllDigits, ReadFrom;
    TextSpells(value, 10, prec, width, f);
    var t := NumberText(value, false, 10, prec, width, f);
    var spaces: nat :| spaces <= |t| && t[..spaces] == Repeat(' ', spaces) &&
      AllDigits(t[spaces..], 10) && Spelled(t[spaces..], 10) == value;
    ReadAll(t[spaces..]);
    assert t == t[..spaces] + t[spaces..];
    ReadBehind(t[..spaces], t[spaces..], 0, 0);
  }

  // ----- What the buffer reads as -----

  function UnsignedText(value: Word): string {
    NumberText(value, false, 10, 0, 0, NO_FLAGS)
  }

  /** The text of the format `%u`. */
  lemma {:induction false} UnsignedFormat(value: Word, floats: Floats)
    ensures TextFrom("%u", [Number(value)], 0, 0, floats) == UnsignedText(value)
  {
    hide NumberText;
    var d := ParsedFrom("%u", [Number(value)], 1, 0);
    assert FlagsFrom("%u", Directive(NO_FLAGS, 0, 0, 1, 0)).at == 1;
    assert d == Directive(NO_FLAGS, 0, 0, 1, 0);
    assert IntegerValue('u', NO_FLAGS, value) == value;
    assert TextFrom("%u", [Number(value)], 2, 1, floats) == [];
  }

  /** The leading digits of a number. */
  lemma {:induction false} SpelledPart(s: string, k: nat)
    requires k <= |s| && AllDigits(s, 10)
    ensures AllDigits(s[..k], 10)
    ensures Spelled(s[..k], 10) == Spelled(s, 10) / PowerOf(10, |s| - k)
    decreases |s|
  {
    hide DigitValue, IsDigitIn;
    if k == |s| {
      assert s[..k] == s;
    } else {
      var t := s[..|s| - 1];
      assert forall c | c in t :: c in s;
      assert t[..k] == s[..k];
      assert s[|s| - 1] in s;
      SpelledPart(t, k);
      DivTwice(Spelled(t, 10), DigitValue(s[|s| - 1], 10), PowerOf(10, |t| - k));
    }
  }

  lemma {:induction false} DivTwice(a: nat, d: nat, p: nat)
    requires d < 10 && p > 0
    ensures (a * 10 + d) / (10 * p) == a / p
  {
    Divided(a, p);
    var q, r := a / p, a % p;
    Gathers(q, p, 10);
    assert a * 10 + d == q * (10 * p) + (r * 10 + d);
    RemainderIs(a * 10 + d, 10 * p, q, r * 10 + d);
  }

  /** Reading stops at the end of the digits. */
  lemma {:induction false} ReadStops(s: string, rest: string)
    requires AllDigits(s, 10) && Spelled(s, 10) < WORD_LIMIT
    ensures ReadFrom(s + [NUL] + rest, 0, 0) == (Spelled(s, 10), |s|)
  {
    hide Spelled;
    ReadAll(s);
    ReadPrefix(s, [NUL] + rest, 0, 0);
    assert s + [NUL] + rest == s + ([NUL] + rest);
  }

  lemma {:induction false} ReadPrefix(s: string, rest: string, i: nat, so: Word)
    requires i <= |s| && rest != [] && !IsDigit(rest[0])
    ensures ReadFrom(s, i, so).1 == |s| ==> ReadFrom(s + rest, i, so) == ReadFrom(s, i, so)
    decreases |s| - i
  {
    if i < |s| {
      assert (s + rest)[i] == s[i];
      if IsDigit(s[i]) {
        ReadPrefix(s, rest, i + 1, (so * 10 + Value(s[i])) % WORD_LIMIT);
      }
    } else {
      assert (s + rest)[i] == rest[0];
    }
  }

  lemma {:induction false} UnsignedDigits(value: Word)
    ensures AllDigits(UnsignedText(value), 10) && Spelled(UnsignedText(value), 10) == value
  {
    hide NumberDigits, Spelled, AllDigits;
    PlainDigits(value, 10, 0, 0, NO_FLAGS);
    assert UnsignedText(value) == Reversed(NumberDigits(value, false, 10, 0, 0, NO_FLAGS));
  }

  /** The buffer filled for `%u`, read as a number: the number put out, or, if the buffer is too small, its
      leading digits. */
  lemma {:induction false} BufferReadsBack(value: Word, maxlen: nat, was: string, floats: Floats)
    requires 0 < maxlen <= |was|
    ensures var text := TextFrom("%u", [Number(value)], 0, 0, floats);
      var n := if |text| < maxlen then |text| else maxlen - 1;
      ReadFrom(Bounded(text, maxlen, was), 0, 0) == (value / PowerOf(10, |text| - n), n)
  {
    hide UnsignedText, AllDigits, Spelled, TextFrom, ReadFrom;
    UnsignedFormat(value, floats);
    UnsignedDigits(value);
    var text := UnsignedText(value);
    var n := if |text| < maxlen then |text| else maxlen - 1;
    SpelledPart(text, n);
    Smaller(value, PowerOf(10, |text| - n));
    ReadStops(text[..n], was[n + 1..]);
  }

  /** If it fits, the number is read back. */
  lemma {:induction false} FittingReadsBack(value: Word, maxlen: nat, was: string, floats: Floats)
    requires 0 < maxlen <= |was| && |TextFrom("%u", [Number(value)], 0, 0, floats)| < maxlen
    ensures var text := TextFrom("%u", [Number(value)], 0, 0, floats);
      ReadFrom(Bounded(text, maxlen, was), 0, 0) == (value, |text|)
  {
    hide TextFrom, ReadFrom, Bounded;
    BufferReadsBack(value, maxlen, was, floats);
    assert value / 1 == value;
  }

  lemma {:induction false} Smaller(value: Word, p: nat)
    requires p > 0
    ensures value / p <= value
  {
    var q := value / p;
    assert value == q * p + value % p;
    MultipleOf(p, q);
  }
}
