/** What every integer directive puts out, field by field, and how every directive is read. */
module PrintfFormats {
  import opened Printf
  import opened PrintfRoundTrip
  import opened Residues

  // ---- Digits -----------------------------------------------------------------------------------

  /** No letter of the other case. */
  predicate InCase(s: string, uppercase: bool) {
    forall c | c in s :: !(if uppercase then 'a' <= c <= 'z' else 'A' <= c <= 'Z')
  }

  /** A numeral that stands for the low digits of a value. */
  predicate Shows(s: string, value: nat, base: nat, uppercase: bool)
    requires base >= 2
  {
    AllDigits(s, base) && InCase(s, uppercase) && Spelled(s, base) == value % PowerOf(base, |s|)
  }

  lemma {:induction false} ModStep(a: nat, d: nat, base: nat, p: nat)
    requires d < base && p > 0
    ensures base * p > 0 && (a * base + d) % (base * p) == a % p * base + d
  {
    Divided(a, p);
    var q, r := a / p, a % p;
    Distributes(q * p, r, base);
    Gathers(q, p, base);
    assert a * base + d == q * (base * p) + (r * base + d);
    AtMost(r, p, base);
    RemainderIs(a * base + d, base * p, q, r * base + d);
  }

  /** The last digits of a numeral spell the remainder. */
  lemma {:induction false} SpelledEnd(s: string, k: nat, base: nat)
    requires AllDigits(s, base) && k <= |s| && base >= 2
    ensures AllDigits(s[k..], base) && Spelled(s[k..], base) == Spelled(s, base) % PowerOf(base, |s| - k)
    decreases |s|
  {
    hide IsDigitIn, DigitValue, Spelled;
    if k == |s| {
      assert s[k..] == [];
      NothingSpelled(base);
    } else {
      var t, c := s[..|s| - 1], s[|s| - 1];
      assert s == t + [c] && s[k..] == t[k..] + [c];
      assert c in s && forall x | x in t :: x in s;
      SpelledEnd(t, k, base);
      SpelledMore(t, c, base);
      SpelledMore(t[k..], c, base);
      ModStep(Spelled(t, base), DigitValue(c, base), base, PowerOf(base, |t| - k));
    }
  }

  lemma {:induction false} OneDigit(value: nat, base: nat, uppercase: bool)
    requires 2 <= base <= 16
    ensures Shows([DigitChar(value % base, uppercase)], value, base, uppercase)
  {
    hide AllDigits, Spelled, IsDigitIn, DigitValue;
    NothingSpelled(base);
    DigitIs(value % base, base, uppercase);
    SpelledMore([], DigitChar(value % base, uppercase), base);
    assert [] + [DigitChar(value % base, uppercase)] == [DigitChar(value % base, uppercase)];
    assert PowerOf(base, 1) == base * PowerOf(base, 0);
  }

  /** The lowest digit behind digits that show the quotient. */
  lemma {:induction false} ShowsOn(value: nat, base: nat, uppercase: bool, rest: string)
    requires 2 <= base <= 16 && value / base >= 0 && Shows(rest, value / base, base, uppercase)
    ensures Shows(rest + [DigitChar(value % base, uppercase)], value, base, uppercase)
  {
    hide AllDigits, Spelled, IsDigitIn, DigitValue;
    Divided(value, base);
    var c := DigitChar(value % base, uppercase);
    DigitIs(value % base, base, uppercase);
    SpelledMore(rest, c, base);
    ModStep(value / base, value % base, base, PowerOf(base, |rest|));
  }

  /** As many digits as there is room for show the value modulo a power of the base. */
  lemma {:induction false} DigitsShow(value: nat, base: nat, uppercase: bool, room: nat)
    requires 2 <= base <= 16 && room > 0
    ensures Shows(Reversed(Digits(value, base, uppercase, room)), value, base, uppercase)
    decreases room
  {
    hide Digits, Reversed, DigitChar, Shows;
    OneMoreDigit(value, base, uppercase, room);
    Divided(value, base);
    var q, c := value / base, DigitChar(value % base, uppercase);
    if q == 0 || room == 1 {
      OneDigit(value, base, uppercase);
      NoRoom(q, base, uppercase);
      ReversedFront(c, []);
      NothingSpelled(base);
      assert [c] + [] == [c] && [] + [c] == [c];
    } else {
      DigitsShow(q, base, uppercase, room - 1);
      ShowsOn(value, base, uppercase, Reversed(Digits(q, base, uppercase, room - 1)));
      ReversedFront(c, Digits(q, base, uppercase, room - 1));
    }
  }

  lemma {:induction false} NoRoom(value: nat, base: nat, uppercase: bool)
    requires 2 <= base <= 16
    ensures Digits(value, base, uppercase, 0) == []
  {
  }

  /** How many: no more than needed, and all that are needed unless the room ends. */
  lemma {:induction false} DigitCount(value: nat, base: nat, uppercase: bool, room: nat)
    requires 2 <= base <= 16 && room > 0
    ensures var n := |Digits(value, base, uppercase, room)|;
      1 <= n <= room && (n > 1 ==> PowerOf(base, n - 1) <= value) && (n < room ==> value < PowerOf(base, n))
    decreases room
  {
    hide Digits, DigitChar;
    OneMoreDigit(value, base, uppercase, room);
    Divided(value, base);
    var q := value / base;
    var n := |Digits(value, base, uppercase, room)|;
    if q == 0 {
      assert n == 1 && PowerOf(base, 1) == base * PowerOf(base, 0);
    } else if room == 1 {
      NoRoom(q, base, uppercase);
    } else {
      DigitCount(q, base, uppercase, room - 1);
      assert n == 1 + |Digits(q, base, uppercase, room - 1)|;
      if n > 2 {
        AtLeast(base, q, PowerOf(base, n - 2));
      } else {
        AtLeast(base, q, 1);
        assert PowerOf(base, 1) == base * PowerOf(base, 0);
      }
      if n < room {
        AtMost(q, PowerOf(base, n - 1), base);
      }
    }
  }

  /** Zeros in front show the same value, if the digits showed all of it. */
  lemma {:induction false} ZerosShow(n: nat, s: string, value: nat, base: nat, uppercase: bool)
    requires base >= 2 && Shows(s, value, base, uppercase) && value < PowerOf(base, |s|)
    ensures Shows(Repeat('0', n) + s, value, base, uppercase) && value < PowerOf(base, n + |s|)
  {
    hide AllDigits, Spelled;
    ZerosSpell(n, s, base);
    PowerMore(base, |s|, n);
    RemainderIs(value, PowerOf(base, |s|), 0, value);
    RemainderIs(value, PowerOf(base, n + |s|), 0, value);
  }

  lemma {:induction false} PowerMore(base: nat, n: nat, k: nat)
    requires base >= 2
    ensures PowerOf(base, n) <= PowerOf(base, k + n)
    decreases k
  {
    if k > 0 {
      PowerMore(base, n, k - 1);
      AtLeast(PowerOf(base, k - 1 + n), base, 1);
      assert PowerOf(base, k + n) == base * PowerOf(base, k - 1 + n);
    }
  }

  /** Dropping leading digits shows less of the value. */
  lemma {:induction false} EndShows(s: string, k: nat, value: nat, base: nat, uppercase: bool)
    requires base >= 2 && Shows(s, value, base, uppercase) && k <= |s|
    ensures Shows(s[k..], value, base, uppercase)
  {
    hide AllDigits, Spelled, PowerOf;
    SpelledEnd(s, k, base);
    var n := |s| - k;
    PowerRemainder(value, base, n, k);
    assert n + k == |s| && |s[k..]| == n;
    assert forall c | c in s[k..] :: c in s;
  }

  lemma {:induction false} PowerRemainder(value: nat, base: nat, n: nat, k: nat)
    requires base >= 2
    ensures value % PowerOf(base, n + k) % PowerOf(base, n) == value % PowerOf(base, n)
  {
    hide PowerOf;
    PowerSum(base, n, k);
    ModMod(value, PowerOf(base, n), PowerOf(base, k));
  }

  lemma {:induction false} PowerSum(base: nat, n: nat, k: nat)
    requires base >= 2
    ensures PowerOf(base, n + k) == PowerOf(base, n) * PowerOf(base, k)
    decreases k
  {
    if k > 0 {
      PowerSum(base, n, k - 1);
      Gathers(PowerOf(base, n), PowerOf(base, k - 1), base);
      assert PowerOf(base, n + k) == base * PowerOf(base, n + (k - 1));
    }
  }

  lemma {:induction false} ModMod(value: nat, p: nat, q: nat)
    requires p > 0 && q > 0
    ensures p * q > 0 && value % (p * q) % p == value % p
  {
    ProductPositive(p, q);
    Divided(value, p * q);
    Divided(value, p);
    var a, r := value / (p * q), value % (p * q);
    Divided(r, p);
    Gathers(a, q, p);
    Distributes(a * q, r / p, p);
    RemainderIs(value, p, a * q + r / p, r % p);
  }

  // ---- One number -------------------------------------------------------------------------------

  /** How many digits the value has, up to the size of the buffer. */
  function Needed(value: nat, base: nat): (n: nat)
    requires 2 <= base <= 16
    ensures 1 <= n <= NTOA_SIZE && CountsDigits(n, value, base)
  {
    DigitCount(value, base, false, NTOA_SIZE);
    |Digits(value, base, false, NTOA_SIZE)|
  }

  /** No fewer digits would do, and these do unless there is no room for more. */
  predicate CountsDigits(n: nat, value: nat, base: nat)
    requires base > 0
  {
    (n > 1 ==> PowerOf(base, n - 1) <= value) && (n < NTOA_SIZE ==> value < PowerOf(base, n))
  }

  function Larger(a: nat, b: nat): nat {
    if a < b then b else a
  }

  function Capped(n: nat): nat {
    if n < NTOA_SIZE then n else NTOA_SIZE
  }

  /** How many digits there are with the zeros that precision and zero padding put in front; none of both when
      the field is filled from the left. */
  function Filled(value: nat, negative: bool, base: nat, prec: nat, width: nat, f: Flags): nat
    requires 2 <= base <= 16
  {
    var n := if f.precision && value == 0 then 0 else Needed(value, base);
    if f.left then n
    else if f.zeropad then Larger(Larger(n, Capped(prec)), Capped(SignWidth(width, negative, f)))
    else Larger(n, Capped(prec))
  }

  /** How many of them are dropped to make room for the prefix of the base: those that fill a field, zeros or not. */
  function Dropped(value: nat, negative: bool, base: nat, prec: nat, width: nat, f: Flags): nat
    requires 2 <= base <= 16
  {
    var n := Filled(value, negative, base, prec, width, f);
    if !f.hash || value == 0 || f.precision || (n != prec && n != SignWidth(width, negative, f)) || n == 0 then 0
    else if base == 16 && n > 1 then 2
    else 1
  }

  /** The prefix of the base, as far as there is room behind the digits. */
  function Prefix(base: nat, uppercase: bool, digits: nat): string {
    var mark := if base == 16 then (if uppercase then "X" else "x") else if base == 2 then "b" else "";
    if digits + |mark| < NTOA_SIZE then "0" + mark else if digits < NTOA_SIZE then mark else ""
  }

  /** The sign, if there is room for it. */
  function SignOf(negative: bool, f: Flags, digits: nat): string {
    if digits >= NTOA_SIZE then "" else if negative then "-" else if f.plus then "+" else if f.space then " " else ""
  }

  lemma {:induction false} ReversedPut(b: string, c: char)
    ensures Reversed(Put(b, c)) == (if |b| < NTOA_SIZE then [c] else "") + Reversed(b)
  {
    hide Reversed;
    if |b| < NTOA_SIZE {
      ReversedBehind(b, c);
    } else {
      assert "" + Reversed(b) == Reversed(b);
    }
  }

  lemma {:induction false} ReversedBehind(b: string, c: char)
    ensures Reversed(b + [c]) == [c] + Reversed(b)
  {
  }

  lemma {:induction false} ReversedSigned(b: string, negative: bool, f: Flags)
    ensures Reversed(Signed(b, negative, f)) == SignOf(negative, f, |b|) + Reversed(b)
  {
    hide Reversed, Put;
    var c := if negative then '-' else if f.plus then '+' else ' ';
    ReversedPut(b, c);
    assert "" + Reversed(b) == Reversed(b);
  }

  /** The digits that stay when leading ones are dropped. */
  lemma {:induction false} ReversedPart(b: string, k: nat)
    requires k <= |b|
    ensures Reversed(b[..|b| - k]) == Reversed(b)[k..]
  {
  }

  lemma {:induction false} MarkPut(b: string, c: char)
    ensures Reversed(Put(Put(b, c), '0')) ==
      (if |b| + 1 < NTOA_SIZE then "0" + [c] else if |b| < NTOA_SIZE then [c] else "") + Reversed(b)
  {
    hide Reversed, Put;
    ReversedPut(b, c);
    ReversedPut(Put(b, c), '0');
    PutLength(b, c);
    assert ['0'] + ([c] + Reversed(b)) == "0" + [c] + Reversed(b);
    assert "" + ([c] + Reversed(b)) == [c] + Reversed(b);
  }

  lemma {:induction false} PutLength(b: string, c: char)
    ensures |Put(b, c)| == if |b| < NTOA_SIZE then |b| + 1 else |b|
  {
  }

  lemma {:induction false} Prefixed(b: string, base: nat, f: Flags)
    ensures var marked := if base == 16 then Put(b, if f.uppercase then 'X' else 'x') else if base == 2 then Put(b, 'b')
        else b;
      Reversed(Put(marked, '0')) == Prefix(base, f.uppercase, |b|) + Reversed(b)
  {
    hide Reversed, Put;
    if base == 16 || base == 2 {
      MarkPut(b, if base == 16 then (if f.uppercase then 'X' else 'x') else 'b');
    } else {
      ReversedPut(b, '0');
      assert "0" + "" == "0";
    }
  }

  lemma {:induction false} HashedIs(b: string, base: nat, prec: nat, width: nat, f: Flags)
    ensures var n := |b|;
      var k := if !f.hash || f.precision || (n != prec && n != width) || n == 0 then 0
        else if base == 16 && n > 1 then 2 else 1;
      Reversed(Hashed(b, base, prec, width, f)) ==
        (if f.hash then Prefix(base, f.uppercase, n - k) else "") + Reversed(b)[k..]
  {
    hide Reversed, Put, Prefix;
    var n := |b|;
    var k := if !f.hash || f.precision || (n != prec && n != width) || n == 0 then 0
      else if base == 16 && n > 1 then 2 else 1;
    if f.hash {
      var b2 := b[..n - k];
      assert k == 2 ==> b[..n - 1][..n - 2] == b2;
      assert k == 0 ==> b2 == b;
      ReversedPart(b, k);
      Prefixed(b2, base, f);
    } else {
      assert Reversed(b)[0..] == Reversed(b) && "" + Reversed(b) == Reversed(b);
    }
  }

  lemma {:induction false} ReversedZerosAre(b: string, n: nat)
    ensures |Zeros(b, n)| == Larger(|b|, Capped(n))
    ensures Reversed(Zeros(b, n)) == Repeat('0', |Zeros(b, n)| - |b|) + Reversed(b)
  {
  }

  /** Zeros up to a length still show the value, and all of it if they change anything. */
  lemma {:induction false} ZerosShowOn(b: string, n: nat, value: nat, base: nat, uppercase: bool)
    requires base >= 2 && Shows(Reversed(b), value, base, uppercase)
    requires |b| < NTOA_SIZE ==> value < PowerOf(base, |b|)
    ensures var z := Zeros(b, n);
      && |z| == Larger(|b|, Capped(n)) && Shows(Reversed(z), value, base, uppercase)
      && (|z| < NTOA_SIZE ==> value < PowerOf(base, |z|))
  {
    hide Zeros, Reversed, Shows, PowerOf;
    ReversedZerosAre(b, n);
    var k := |Zeros(b, n)| - |b|;
    if k > 0 {
      ZerosShow(k, Reversed(b), value, base, uppercase);
    } else {
      assert Repeat('0', 0) + Reversed(b) == Reversed(b);
    }
  }

  /** The digits before any padding. */
  lemma {:induction false} UnpaddedShows(value: nat, base: nat, f: Flags)
    requires 2 <= base <= 16
    ensures var b := if !f.precision || value != 0 then Digits(value, base, f.uppercase, NTOA_SIZE) else [];
      && |b| == (if f.precision && value == 0 then 0 else Needed(value, base))
      && Shows(Reversed(b), value, base, f.uppercase) && (|b| < NTOA_SIZE ==> value < PowerOf(base, |b|))
  {
    hide Digits, Reversed, Shows, PowerOf;
    if !f.precision || value != 0 {
      DigitsShow(value, base, f.uppercase, NTOA_SIZE);
      DigitCount(value, base, f.uppercase, NTOA_SIZE);
      SameCount(value, base, f.uppercase, false, NTOA_SIZE);
    } else {
      ZeroShows(base, f.uppercase);
    }
  }

  /** The digits with their zeros. */
  lemma {:induction false} PaddedShows(b: string, value: nat, negative: bool, base: nat, prec: nat, width: nat,
                                       f: Flags)
    requires 2 <= base <= 16 && |b| == if f.precision && value == 0 then 0 else Needed(value, base)
    requires Shows(Reversed(b), value, base, f.uppercase) && (|b| < NTOA_SIZE ==> value < PowerOf(base, |b|))
    ensures var p := Padded(b, prec, SignWidth(width, negative, f), f);
      |p| == Filled(value, negative, base, prec, width, f) && Shows(Reversed(p), value, base, f.uppercase)
  {
    hide Zeros, Reversed, Shows, PowerOf, Needed, SignWidth, Larger, Capped;
    if !f.left {
      ZerosShowOn(b, prec, value, base, f.uppercase);
      if f.zeropad {
        ZerosShowOn(Zeros(b, prec), SignWidth(width, negative, f), value, base, f.uppercase);
      }
    }
  }

  /** A number without the prefix of zero looks the same. */
  lemma {:induction false} SameFields(value: nat, negative: bool, base: nat, prec: nat, width: nat, b: string, f: Flags)
    requires 2 <= base <= 16
    ensures var g := f.(hash := false);
      && SignWidth(width, negative, g) == SignWidth(width, negative, f)
      && Padded(b, prec, width, g) == Padded(b, prec, width, f)
      && Signed(b, negative, g) == Signed(b, negative, f)
      && g.precision == f.precision && g.uppercase == f.uppercase
  {
    hide Zeros, Put;
  }

  lemma {:induction false} ZeroShows(base: nat, uppercase: bool)
    requires base >= 2
    ensures Reversed([]) == [] && Shows([], 0, base, uppercase) && 0 < PowerOf(base, 0)
  {
    NothingSpelled(base);
  }

  lemma {:induction false} SameCount(value: nat, base: nat, a: bool, b: bool, room: nat)
    requires 2 <= base <= 16
    ensures |Digits(value, base, a, room)| == |Digits(value, base, b, room)|
    decreases room
  {
    hide DigitChar;
    if room > 0 && value / base != 0 {
      Divided(value, base);
      SameCount(value / base, base, a, b, room - 1);
    }
  }

  /** What is converted, in terms of the flags given. */
  lemma {:induction false} NumberIs(value: nat, negative: bool, base: nat, prec: nat, width: nat, f: Flags)
    requires 2 <= base <= 16
    ensures var b := if !f.precision || value != 0 then Digits(value, base, f.uppercase, NTOA_SIZE) else [];
      var w := SignWidth(width, negative, f);
      var h := Hashed(Padded(b, prec, w, f), base, prec, w, if value == 0 then f.(hash := false) else f);
      NumberText(value, negative, base, prec, width, f) == RevText(Signed(h, negative, f), w, f)
  {
    hide Digits, Padded, Signed, SignWidth, Hashed;
    var b := if !f.precision || value != 0 then Digits(value, base, f.uppercase, NTOA_SIZE) else [];
    var w := SignWidth(width, negative, f);
    var g := if value == 0 then f.(hash := false) else f;
    SameFields(value, negative, base, prec, width, b, f);
    SameFields(value, negative, base, prec, w, b, f);
    SameFields(value, negative, base, prec, w, Hashed(Padded(b, prec, w, f), base, prec, w, g), f);
  }

  /** The digits and their prefix. */
  lemma {:induction false} HashedShows(p: string, value: nat, negative: bool, base: nat, prec: nat, width: nat,
                                       f: Flags)
      returns (digits: string)
    requires 2 <= base <= 16 && |p| == Filled(value, negative, base, prec, width, f)
    requires Shows(Reversed(p), value, base, f.uppercase)
    ensures Shows(digits, value, base, f.uppercase)
    ensures |digits| == Filled(value, negative, base, prec, width, f) - Dropped(value, negative, base, prec, width, f)
    ensures var h := Hashed(p, base, prec, SignWidth(width, negative, f), if value == 0 then f.(hash := false) else f);
      var prefix := if f.hash && value != 0 then Prefix(base, f.uppercase, |digits|) else "";
      Reversed(h) == prefix + digits
  {
    hide Hashed, Reversed, Shows, PowerOf, Prefix, Filled, SignWidth;
    var g := if value == 0 then f.(hash := false) else f;
    HashedIs(p, base, prec, SignWidth(width, negative, f), g);
    var k := Dropped(value, negative, base, prec, width, f);
    digits := Reversed(p)[k..];
    EndShows(Reversed(p), k, value, base, f.uppercase);
  }

  /** A number put out: blanks up to the width on one side, the sign, the prefix and digits that show the value. */
  lemma {:induction false} NumberShape(value: nat, negative: bool, base: nat, prec: nat, width: nat, f: Flags)
      returns (digits: string)
    requires 2 <= base <= 16
    ensures Shows(digits, value, base, f.uppercase)
    ensures |digits| == Filled(value, negative, base, prec, width, f) - Dropped(value, negative, base, prec, width, f)
    ensures NumberText(value, negative, base, prec, width, f) == FieldOf(value, negative, base, width, f, digits)
  {
    hide Digits, Padded, Hashed, Signed, Reversed, Shows, PowerOf, Prefix, Filled, Dropped, SignOf, Needed, NumberText,
      RevText, SignWidth, FieldOf;
    UnpaddedShows(value, base, f);
    var b := if !f.precision || value != 0 then Digits(value, base, f.uppercase, NTOA_SIZE) else [];
    PaddedShows(b, value, negative, base, prec, width, f);
    NumberIs(value, negative, base, prec, width, f);
    var p := Padded(b, prec, SignWidth(width, negative, f), f);
    digits := HashedShows(p, value, negative, base, prec, width, f);
    InField(value, negative, base, width, f, digits,
            Hashed(p, base, prec, SignWidth(width, negative, f), if value == 0 then f.(hash := false) else f));
  }

  /** The field of a number: blanks, sign, prefix and digits. */
  function FieldOf(value: nat, negative: bool, base: nat, width: nat, f: Flags, digits: string): string {
    var prefix := if f.hash && value != 0 then Prefix(base, f.uppercase, |digits|) else "";
    var body := SignOf(negative, f, |prefix| + |digits|) + prefix + digits;
    Repeat(' ', if f.left || f.zeropad then 0 else width - |body|) + body +
      Repeat(' ', if f.left then width - |body| else 0)
  }

  lemma {:induction false} InField(value: nat, negative: bool, base: nat, width: nat, f: Flags, digits: string,
                                   h: string)
    requires Reversed(h) == (if f.hash && value != 0 then Prefix(base, f.uppercase, |digits|) else "") + digits
    ensures RevText(Signed(h, negative, f), SignWidth(width, negative, f), f) ==
      FieldOf(value, negative, base, width, f, digits)
  {
    hide Signed, Reversed, Prefix, SignOf;
    ReversedSigned(h, negative, f);
    var prefix := if f.hash && value != 0 then Prefix(base, f.uppercase, |digits|) else "";
    var sign := SignOf(negative, f, |h|);
    assert |h| == |Reversed(h)|;
    assert sign + (prefix + digits) == sign + prefix + digits;
  }

  /** Without a prefix, and with room for the sign, a number fills exactly its width, or what it needs: the sign, and
      its digits or the precision, which is not heeded in a field filled from the left. */
  lemma {:induction false} FieldLength(value: nat, negative: bool, base: nat, prec: nat, width: nat, f: Flags)
    requires 2 <= base <= 16 && width <= NTOA_SIZE && !(f.hash && value != 0)
    requires var n := if f.precision && value == 0 then 0 else Needed(value, base);
      (if f.left then n else Larger(n, prec)) < NTOA_SIZE
    ensures var n := if f.precision && value == 0 then 0 else Needed(value, base);
      |NumberText(value, negative, base, prec, width, f)| ==
        Larger(width, (if negative || f.plus || f.space then 1 else 0) + if f.left then n else Larger(n, prec))
  {
    hide Needed, NumberText, Shows;
    var digits := NumberShape(value, negative, base, prec, width, f);
  }

  // ---- Reading a directive ----------------------------------------------------------------------

  /** The text stands in the format at a place. */
  predicate Has(s: string, i: nat, t: string) {
    i + |t| <= |s| && s[i..i + |t|] == t
  }

  predicate FlagText(t: string) {
    forall c | c in t :: c in {'0', '-', '+', ' ', '#'}
  }

  predicate NumeralText(t: string) {
    t != [] && AllDigits(t, 10)
  }

  /** A width does not start with a zero: that is a flag. */
  predicate WidthText(t: string) {
    t == "" || t == "*" || (NumeralText(t) && t[0] != '0')
  }

  predicate PrecisionText(t: string) {
    t == "" || (t[0] == '.' && (t[1..] == "" || t[1..] == "*" || NumeralText(t[1..])))
  }

  predicate LengthText(t: string) {
    t in {"", "l", "ll", "h", "hh", "t", "j", "z"}
  }

  /** Anything that none of these parts can start with or go on with. */
  predicate Specifier(c: char) {
    c !in {'0', '-', '+', ' ', '#', '*', '.', 'l', 'h', 't', 'j', 'z'} && !('0' <= c <= '9')
  }

  function NumeralOf(t: string): Word {
    if AllDigits(t, 10) then Spelled(t, 10) % WORD_LIMIT else 0
  }

  /** What the parts of a directive mean: each flag is set if its character occurs; a width given as an argument
      fills from the left when it is negative, and a negative precision is zero. */
  function DirectiveOf(flags: string, width: string, prec: string, length: string, args: seq<Arg>, i: nat,
                       used: nat): Directive {
    var w := ToInt(NumberArg(args, used));
    var next := if width == "*" then used + 1 else used;
    var p := ToInt(NumberArg(args, next));
    Directive(
      Flags('0' in flags, '-' in flags || (width == "*" && w < 0), '+' in flags, ' ' in flags, '#' in flags, false,
            length == "hh", length in {"h", "hh"}, length in {"l", "ll", "t", "z"}, length in {"ll", "j"}, prec != ""),
      if width == "*" then (if w < 0 then -w else w) else if width == "" then 0 else NumeralOf(width),
      if prec == ".*" then (if p < 0 then 0 else p) else if |prec| <= 1 then 0 else NumeralOf(prec[1..]),
      i + |flags| + |width| + |prec| + |length|,
      if prec == ".*" then next + 1 else next)
  }

  /** The flags of a text on top of others. */
  function WithFlags(f: Flags, t: string): Flags {
    Added(f, '0' in t, '-' in t, '+' in t, ' ' in t, '#' in t)
  }

  function Added(f: Flags, zeropad: bool, left: bool, plus: bool, space: bool, hash: bool): Flags {
    f.(zeropad := f.zeropad || zeropad, left := f.left || left, plus := f.plus || plus, space := f.space || space,
       hash := f.hash || hash)
  }

  lemma {:induction false} FlagAdded(c: char, f: Flags)
    requires c in {'0', '-', '+', ' ', '#'}
    ensures FlagOf(c, f) == Added(f, c == '0', c == '-', c == '+', c == ' ', c == '#')
  {
  }

  lemma {:induction false} AddedTwice(f: Flags, z: bool, l: bool, p: bool, s: bool, h: bool, z': bool, l': bool,
                                      p': bool, s': bool, h': bool)
    ensures Added(Added(f, z, l, p, s, h), z', l', p', s', h') == Added(f, z || z', l || l', p || p', s || s', h || h')
  {
  }

  lemma {:induction false} FlagsFront(s: string, d: Directive)
    requires d.at < |s| && s[d.at] in {'0', '-', '+', ' ', '#'}
    ensures FlagsFrom(s, d) == FlagsFrom(s, d.(flags := FlagOf(s[d.at], d.flags), at := d.at + 1))
  {
    hide FlagOf;
  }

  lemma {:induction false} FlagsEnd(s: string, d: Directive)
    requires CharAt(s, d.at) !in {'0', '-', '+', ' ', '#'}
    ensures FlagsFrom(s, d) == d && WithFlags(d.flags, "") == d.flags
  {
  }

  lemma {:induction false} FlagsRead(s: string, d: Directive, t: string)
    requires Has(s, d.at, t) && FlagText(t) && CharAt(s, d.at + |t|) !in {'0', '-', '+', ' ', '#'}
    ensures FlagsFrom(s, d) == d.(flags := WithFlags(d.flags, t), at := d.at + |t|)
    decreases |t|
  {
    hide FlagsFrom, FlagOf, WithFlags;
    if t == "" {
      FlagsEnd(s, d);
    } else {
      assert s[d.at] == t[0] && t[0] in t;
      var e := d.(flags := FlagOf(t[0], d.flags), at := d.at + 1);
      FlagsFront(s, d);
      assert t == [t[0]] + t[1..];
      assert s[e.at..e.at + |t| - 1] == t[1..];
      assert forall c | c in t[1..] :: c in t;
      FlagsRead(s, e, t[1..]);
      OneFlag(d.flags, t);
    }
  }

  lemma {:induction false} OneFlag(f: Flags, t: string)
    requires t != "" && FlagText(t)
    ensures WithFlags(FlagOf(t[0], f), t[1..]) == WithFlags(f, t)
  {
    hide Added, FlagOf;
    var c, r := t[0], t[1..];
    assert c in t;
    FirstOrLater('0', t);
    FirstOrLater('-', t);
    FirstOrLater('+', t);
    FirstOrLater(' ', t);
    FirstOrLater('#', t);
    FlagAdded(c, f);
    AddedTwice(f, c == '0', c == '-', c == '+', c == ' ', c == '#', '0' in r, '-' in r, '+' in r, ' ' in r, '#' in r);
  }

  lemma {:induction false} FirstOrLater(c: char, t: string)
    requires t != ""
    ensures c in t <==> c == t[0] || c in t[1..]
  {
    assert t == [t[0]] + t[1..];
  }

  /** A numeral in the format is read as its value. */
  lemma {:induction false} NumeralRead(s: string, i: nat, t: string)
    requires Has(s, i, t) && NumeralText(t) && !('0' <= CharAt(s, i + |t|) <= '9')
    ensures i < |s| && IsDigit(s[i]) && ReadFrom(s, i, 0) == (NumeralOf(t), i + |t|)
  {
    hide Spelled, ReadFrom;
    assert s[i] == t[0] && t[0] in t;
    DecimalDigit(t[0]);
    assert t[..|t|] == t;
    ReadSpelled(t, |t|);
    ReadDone(t, |t|, Spelled(t, 10) % WORD_LIMIT);
    var rest := s[i + |t|..];
    if rest == [] {
      assert s == s[..i] + t;
    } else {
      ReadPrefix(t, rest, 0, 0);
      assert s == s[..i] + (t + rest);
    }
    ReadBehind(s[..i], t + rest, 0, 0);
    assert rest == [] ==> t + rest == t;
  }

  lemma {:induction false} ReadDone(t: string, i: nat, so: Word)
    requires i == |t|
    ensures ReadFrom(t, i, so) == (so, i)
  {
  }

  lemma {:induction false} WidthRead(s: string, args: seq<Arg>, d: Directive, t: string)
    requires Has(s, d.at, t) && WidthText(t) && d.width == 0
    requires !('0' <= CharAt(s, d.at + |t|) <= '9') && (t == "" ==> CharAt(s, d.at) != '*')
    ensures var w := ToInt(NumberArg(args, d.used));
      WidthFrom(s, args, d) ==
        Directive(d.flags.(left := d.flags.left || (t == "*" && w < 0)),
                  if t == "*" then (if w < 0 then -w else w) else if t == "" then 0 else NumeralOf(t),
                  d.prec, d.at + |t|, if t == "*" then d.used + 1 else d.used)
  {
    hide ReadFrom, NumeralOf, ToInt;
    if t == "*" {
      assert s[d.at] == t[0];
    } else if t != "" {
      NumeralRead(s, d.at, t);
    }
  }

  lemma {:induction false} PrecisionRead(s: string, args: seq<Arg>, d: Directive, t: string)
    requires Has(s, d.at, t) && PrecisionText(t) && d.prec == 0
    requires !('0' <= CharAt(s, d.at + |t|) <= '9') && (t == "" ==> CharAt(s, d.at) != '.')
    requires t == "." ==> CharAt(s, d.at + 1) != '*'
    ensures var p := ToInt(NumberArg(args, d.used));
      PrecisionFrom(s, args, d) ==
        Directive(d.flags.(precision := d.flags.precision || t != ""), d.width,
                  if t == ".*" then (if p < 0 then 0 else p) else if |t| <= 1 then 0 else NumeralOf(t[1..]),
                  d.at + |t|, if t == ".*" then d.used + 1 else d.used)
  {
    hide ReadFrom, NumeralOf, ToInt;
    if t != "" {
      assert s[d.at] == t[0] && t == [t[0]] + t[1..];
      assert s[d.at + 1..d.at + |t|] == t[1..];
      if t[1..] == "*" {
        assert s[d.at + 1] == t[1];
      } else if |t| > 1 {
        NumeralRead(s, d.at + 1, t[1..]);
        assert t[1] in t[1..];
      }
    }
  }

  lemma {:induction false} LengthRead(s: string, d: Directive, t: string)
    requires Has(s, d.at, t) && LengthText(t) && Specifier(CharAt(s, d.at + |t|))
    ensures LengthFrom(s, d) ==
      d.(flags := d.flags.(char_ := d.flags.char_ || t == "hh", short := d.flags.short || t in {"h", "hh"},
                           long := d.flags.long || t in {"l", "ll", "t", "z"},
                           longLong := d.flags.longLong || t in {"ll", "j"}),
         at := d.at + |t|)
  {
    if t != "" {
      assert s[d.at] == t[0];
    }
    if |t| == 2 {
      assert s[d.at + 1] == t[1];
    }
  }

  /** A directive with all its parts, as the text of one format. */
  predicate Reads(s: string, i: nat, flags: string, width: string, prec: string, length: string) {
    && FlagText(flags) && WidthText(width) && PrecisionText(prec) && LengthText(length)
    && Has(s, i, flags) && Has(s, i + |flags|, width) && Has(s, i + |flags| + |width|, prec)
    && Has(s, i + |flags| + |width| + |prec|, length)
    && Specifier(CharAt(s, i + |flags| + |width| + |prec| + |length|))
  }

  /** The character a part starts with, or what follows if it is empty. */
  lemma {:induction false} StartsWith(s: string, i: nat, t: string)
    requires Has(s, i, t)
    ensures t != "" ==> CharAt(s, i) == t[0]
  {
    if t != "" {
      assert s[i..i + |t|][0] == s[i];
    }
  }

  lemma {:induction false} NextCharacters(s: string, i: nat, flags: string, width: string, prec: string, length: string)
    requires Reads(s, i, flags, width, prec, length)
    ensures var w := i + |flags|;
      var p := w + |width|;
      var l := p + |prec|;
      && CharAt(s, w) !in {'0', '-', '+', ' ', '#'}
      && !('0' <= CharAt(s, p) <= '9') && (width == "" ==> CharAt(s, w) != '*')
      && !('0' <= CharAt(s, l) <= '9') && CharAt(s, l) !in {'*', '.'} && CharAt(s, l) !in {'0', '-', '+', ' ', '#'}
      && (prec == "" ==> CharAt(s, p) != '.')
  {
    hide Has, Spelled;
    StartsWith(s, i + |flags|, width);
    StartsWith(s, i + |flags| + |width|, prec);
    StartsWith(s, i + |flags| + |width| + |prec|, length);
    if width != "" && width != "*" {
      assert width[0] in width;
      DecimalDigit(width[0]);
    }
  }

  /** Reading a directive gives what its parts mean, whatever they are. */
  lemma {:induction false} DirectiveRead(s: string, args: seq<Arg>, i: nat, used: nat, flags: string, width: string,
                                         prec: string, length: string)
    requires Reads(s, i, flags, width, prec, length)
    ensures ParsedFrom(s, args, i, used) == DirectiveOf(flags, width, prec, length, args, i, used)
  {
    hide FlagsFrom, WidthFrom, PrecisionFrom, LengthFrom, NumeralOf, ToInt, Has, WithFlags;
    NextCharacters(s, i, flags, width, prec, length);
    var d1 := FlagsFrom(s, Directive(NO_FLAGS, 0, 0, i, used));
    FlagsRead(s, Directive(NO_FLAGS, 0, 0, i, used), flags);
    FlagsAre(flags);
    WidthRead(s, args, d1, width);
    var d2 := WidthFrom(s, args, d1);
    PrecisionRead(s, args, d2, prec);
    LengthRead(s, PrecisionFrom(s, args, d2), length);
    FlagsTogether(d1.flags, width == "*" && ToInt(NumberArg(args, used)) < 0, prec != "", length == "hh",
                  length in {"h", "hh"}, length in {"l", "ll", "t", "z"}, length in {"ll", "j"});
  }

  /** The flags of a directive, set one after the other. */
  lemma {:induction false} FlagsTogether(f: Flags, left: bool, prec: bool, char_: bool, short: bool, long: bool,
                                         longLong: bool)
    requires f == Flags(f.zeropad, f.left, f.plus, f.space, f.hash, false, false, false, false, false, false)
    ensures var g := f.(left := f.left || left);
      var h := g.(precision := g.precision || prec);
      h.(char_ := h.char_ || char_, short := h.short || short, long := h.long || long,
         longLong := h.longLong || longLong) ==
        Flags(f.zeropad, f.left || left, f.plus, f.space, f.hash, false, char_, short, long, longLong, prec)
  {
  }

  lemma {:induction false} FlagsAre(t: string)
    ensures WithFlags(NO_FLAGS, t) ==
      Flags('0' in t, '-' in t, '+' in t, ' ' in t, '#' in t, false, false, false, false, false, false)
  {
  }

  // ---- What a directive puts out ----------------------------------------------------------------

  /** The size of the C type an integer directive reads: `int` and `long` have 32 bits. */
  function Modulus(f: Flags): nat {
    if f.longLong then 0x1_0000_0000_0000_0000
    else if f.long then 0x1_0000_0000
    else if f.char_ then 0x100
    else if f.short then 0x1_0000
    else 0x1_0000_0000
  }

  /** `%d` and `%i` are signed, plain characters are not. */
  predicate SignedType(c: char, f: Flags) {
    (c == 'd' || c == 'i') && (f.char_ ==> f.long || f.longLong)
  }

  /** The value of an argument in the type of the directive. */
  predicate Represents(c: char, f: Flags, n: int, v: int) {
    && (v - n) % Modulus(f) == 0
    && if SignedType(c, f) then 0 - Modulus(f) <= 2 * v < Modulus(f) else 0 <= v < Modulus(f)
  }

  /** The flags that count for an integer directive: a prefix for all bases but ten, a plus sign or blank for
      `%d` and `%i`, padding zeros unless a precision is given. */
  function Counting(c: char, f: Flags): Flags {
    Updated(f, f.hash && c in {'x', 'X', 'o', 'b'}, f.uppercase || c == 'X', f.plus && (c == 'd' || c == 'i'),
            f.space && (c == 'd' || c == 'i'), f.zeropad && !f.precision)
  }

  function Updated(f: Flags, hash: bool, uppercase: bool, plus: bool, space: bool, zeropad: bool): Flags {
    f.(hash := hash, uppercase := uppercase, plus := plus, space := space, zeropad := zeropad)
  }

  function Base(c: char): (b: nat)
    ensures 2 <= b <= 16
  {
    if c in {'x', 'X'} then 16 else if c == 'o' then 8 else if c == 'b' then 2 else 10
  }

  lemma {:induction false} HashCounts(c: char, f: Flags)
    requires c in {'d', 'i', 'u', 'x', 'X', 'o', 'b'}
    ensures HashFor(c, f) == Updated(f, f.hash && c in {'x', 'X', 'o', 'b'}, f.uppercase, f.plus, f.space, f.zeropad)
  {
  }

  lemma {:induction false} CaseCounts(c: char, f: Flags, h: bool)
    ensures CaseFor(c, Updated(f, h, f.uppercase, f.plus, f.space, f.zeropad)) ==
      Updated(f, h, f.uppercase || c == 'X', f.plus, f.space, f.zeropad)
  {
  }

  lemma {:induction false} SignsCount(c: char, f: Flags, h: bool, u: bool)
    ensures SignsFor(c, Updated(f, h, u, f.plus, f.space, f.zeropad)) ==
      Updated(f, h, u, f.plus && (c == 'd' || c == 'i'), f.space && (c == 'd' || c == 'i'), f.zeropad)
  {
  }

  lemma {:induction false} ZerosCount(f: Flags, h: bool, u: bool, p: bool, s: bool)
    ensures ZerosFor(Updated(f, h, u, p, s, f.zeropad)) == Updated(f, h, u, p, s, f.zeropad && !f.precision)
  {
  }

  lemma {:induction false} FlagsCount(c: char, f: Flags)
    requires c in {'d', 'i', 'u', 'x', 'X', 'o', 'b'}
    ensures IntegerFlags(c, f) == Counting(c, f)
  {
    hide HashFor, CaseFor, SignsFor, ZerosFor, Updated;
    HashCounts(c, f);
    CaseCounts(c, f, f.hash && c in {'x', 'X', 'o', 'b'});
    SignsCount(c, f, f.hash && c in {'x', 'X', 'o', 'b'}, f.uppercase || c == 'X');
    ZerosCount(f, f.hash && c in {'x', 'X', 'o', 'b'}, f.uppercase || c == 'X', f.plus && (c == 'd' || c == 'i'),
               f.space && (c == 'd' || c == 'i'));
  }

  lemma {:induction false} BaseIs(c: char)
    ensures BaseOf(c) == Base(c)
  {
  }

  lemma {:induction false} Wrapped(n: int, half: nat, m: nat)
    requires m > 0 && 2 * half == m
    ensures 0 <= n % m < m && (n % m - n) % m == 0
    ensures var v := (n + half) % m - half; 0 - m <= 2 * v < m && (v - n) % m == 0
  {
    Divided(n, m);
    Divided(n + half, m);
    RemainderIs(n % m - n, m, -(n / m), 0);
    RemainderIs((n + half) % m - half - n, m, -((n + half) / m), 0);
  }

  lemma {:induction false} ValueRepresents(c: char, f: Flags, n: int)
    requires c in {'d', 'i', 'u', 'x', 'X', 'o', 'b'}
    ensures Represents(c, f, n, IntegerValue(c, IntegerFlags(c, f), n))
  {
    hide IntegerFlags, IntegerValue;
    FlagsCount(c, f);
    ValueIs(c, IntegerFlags(c, f), n);
    ValueIs(c, f, n);
    var m := Modulus(f);
    Wrapped(n, m / 2, m);
  }

  lemma {:induction false} ValueIs(c: char, f: Flags, n: int)
    ensures IntegerValue(c, f, n) ==
      if SignedType(c, f) then (n + Modulus(f) / 2) % Modulus(f) - Modulus(f) / 2 else n % Modulus(f)
  {
  }

  function Absolute(v: int): nat {
    if v < 0 then -v else v
  }

  /** Every integer directive puts out its argument's value: the sign, and digits that show its magnitude. */
  lemma {:induction false} IntegerOutput(c: char, d: Directive, args: seq<Arg>, floats: Floats)
      returns (v: int, digits: string)
    requires c in {'d', 'i', 'u', 'x', 'X', 'o', 'b'}
    ensures Represents(c, d.flags, NumberArg(args, d.used), v)
    ensures var f := Counting(c, d.flags);
      && Shows(digits, Absolute(v), Base(c), f.uppercase)
      && |digits| == Filled(Absolute(v), v < 0, Base(c), d.prec, d.width, f) -
                       Dropped(Absolute(v), v < 0, Base(c), d.prec, d.width, f)
      && ConvertedText(c, d, args, floats) == FieldOf(Absolute(v), v < 0, Base(c), d.width, f, digits)
  {
    hide Filled, Dropped, Shows, FieldOf, NumberText, IntegerValue, IntegerFlags, Counting, Represents;
    FlagsCount(c, d.flags);
    BaseIs(c);
    ValueRepresents(c, d.flags, NumberArg(args, d.used));
    v := IntegerValue(c, IntegerFlags(c, d.flags), NumberArg(args, d.used));
    digits := NumberShape(Absolute(v), v < 0, Base(c), d.prec, d.width, Counting(c, d.flags));
  }

  // ---- Formats ----------------------------------------------------------------------------------

  /** A percent sign and what stands behind it, in any format: the text of the directive as its parts mean it, and
      the rest of the format with the arguments behind those used. */
  lemma {:induction false} DirectiveText(s: string, args: seq<Arg>, i: nat, used: nat, flags: string, width: string,
                                         prec: string, length: string, floats: Floats)
    requires i < |s| && s[i] == '%' && Reads(s, i + 1, flags, width, prec, length)
    ensures var d := DirectiveOf(flags, width, prec, length, args, i + 1, used);
      var c := CharAt(s, d.at);
      TextFrom(s, args, i, used, floats) ==
        ConvertedText(c, d, args, floats) +
        TextFrom(s, args, d.at + 1, if c in "diuxXobfFeEgGcsp" then d.used + 1 else d.used, floats)
  {
    hide ConvertedText, ParsedFrom, DirectiveOf;
    DirectiveRead(s, args, i + 1, used, flags, width, prec, length);
    Takes(CharAt(s, ParsedFrom(s, args, i + 1, used).at));
  }

  lemma {:induction false} Takes(c: char)
    ensures TakesArgument(c) <==> c in "diuxXobfFeEgGcsp"
  {
    var t := "diuxXobfFeEgGcsp";
    assert t == ['d', 'i', 'u', 'x', 'X', 'o', 'b', 'f', 'F', 'e', 'E', 'g', 'G', 'c', 's', 'p'];
  }

  lemma {:induction false} OneLiteral(s: string, args: seq<Arg>, i: nat, used: nat, floats: Floats)
    requires i < |s| && s[i] != '%'
    ensures TextFrom(s, args, i, used, floats) == [s[i]] + TextFrom(s, args, i + 1, used, floats)
  {
    hide ConvertedText, ParsedFrom, TakesArgument;
  }

  /** What stands between directives is put out as it is. */
  lemma {:induction false} LiteralText(s: string, args: seq<Arg>, i: nat, j: nat, used: nat, floats: Floats)
    requires i <= j <= |s| && forall k | i <= k < j :: s[k] != '%'
    ensures TextFrom(s, args, i, used, floats) == s[i..j] + TextFrom(s, args, j, used, floats)
    decreases j - i
  {
    hide TextFrom;
    if i == j {
      assert s[i..j] == [];
    } else {
      assert s[i..j] == [s[i]] + s[i + 1..j];
      OneLiteral(s, args, i, used, floats);
      LiteralText(s, args, i + 1, j, used, floats);
    }
  }

  /** A format of one directive with flags and width only. */
  lemma {:induction false} OneDirective(flags: string, width: string, c: char, arg: Arg, floats: Floats)
    requires FlagText(flags) && (width == "" || (NumeralText(width) && width[0] != '0')) && c in "diuxXobcsp"
    ensures TextFrom("%" + flags + width + [c], [arg], 0, 0, floats) ==
      ConvertedText(c, DirectiveOf(flags, width, "", "", [arg], 1, 0), [arg], floats)
  {
    hide ConvertedText, NumeralText;
    var s := "%" + flags + width + [c];
    var n := 1 + |flags| + |width|;
    assert s[0] == '%' && s[n] == c && |s| == n + 1;
    assert s[1..1 + |flags|] == flags && s[1 + |flags|..n] == width && s[n..n] == "";
    OneSpecifier(c);
    DirectiveText(s, [arg], 0, 0, flags, width, "", "", floats);
    assert TextFrom(s, [arg], n + 1, 1, floats) == [];
    assert ConvertedText(c, DirectiveOf(flags, width, "", "", [arg], 1, 0), [arg], floats) + [] ==
      ConvertedText(c, DirectiveOf(flags, width, "", "", [arg], 1, 0), [arg], floats);
  }

  lemma {:induction false} OneSpecifier(c: char)
    requires c in "diuxXobcsp"
    ensures Specifier(c) && c in "diuxXobfFeEgGcsp"
  {
    assert "diuxXobcsp" == ['d', 'i', 'u', 'x', 'X', 'o', 'b', 'c', 's', 'p'];
    Takes(c);
  }

  /** The shortest numeral of a number: no zero in front of others. */
  predicate Numeral(s: string, value: nat, base: nat, uppercase: bool)
    requires base >= 2
  {
    && s != [] && AllDigits(s, base) && InCase(s, uppercase) && Spelled(s, base) == value
    && (|s| > 1 ==> PowerOf(base, |s| - 1) <= value)
  }

  lemma {:induction false} WholeNumeral(digits: string, value: nat, base: nat, uppercase: bool)
    requires 2 <= base <= 16 && value < WORD_LIMIT && Shows(digits, value, base, uppercase)
    requires |digits| == Needed(value, base)
    ensures Numeral(digits, value, base, uppercase)
  {
    hide AllDigits, Spelled, PowerOf, InCase;
    Thumb.Pow2Word();
    PowerGrows(base, NTOA_SIZE);
    RemainderIs(value, PowerOf(base, |digits|), 0, value);
  }

  lemma {:induction false} EmptyDirective(args: seq<Arg>)
    ensures DirectiveOf("", "", "", "", args, 1, 0) == Directive(NO_FLAGS, 0, 0, 1, 0)
  {
  }

  /** A field without flags and width: only the sign stands before the digits. */
  lemma {:induction false} BareField(value: nat, negative: bool, base: nat, uppercase: bool, digits: string)
    requires 2 <= base <= 16
    ensures var f := NO_FLAGS.(uppercase := uppercase);
      && FieldOf(value, negative, base, 0, f, digits) ==
           (if negative && |digits| < NTOA_SIZE then "-" else "") + digits
      && Filled(value, negative, base, 0, 0, f) == Needed(value, base) && Dropped(value, negative, base, 0, 0, f) == 0
  {
    hide Needed;
    var f := NO_FLAGS.(uppercase := uppercase);
    var body := SignOf(negative, f, |digits|) + "" + digits;
    assert body == (if negative && |digits| < NTOA_SIZE then "-" else "") + digits;
    assert "" + body + "" == body;
    assert Repeat(' ', 0) == "" && Repeat(' ', 0 - |body|) == "";
  }

  /** A format of one plain directive: a minus sign and the shortest numeral. */
  lemma {:induction false} PlainFormat(c: char, n: int, floats: Floats) returns (v: int, digits: string)
    requires c in {'d', 'i', 'u', 'x', 'X', 'o', 'b'}
    ensures Represents(c, NO_FLAGS, n, v) && Numeral(digits, Absolute(v), Base(c), c == 'X')
    ensures TextFrom("%" + [c], [Number(n)], 0, 0, floats) ==
      (if v < 0 && |digits| < NTOA_SIZE then "-" else "") + digits
  {
    hide ConvertedText, FieldOf, Filled, Dropped, Needed, Shows, Numeral;
    assert "%" + "" + "" + [c] == "%" + [c];
    SpecifierOf(c);
    OneDirective("", "", c, Number(n), floats);
    EmptyDirective([Number(n)]);
    var d := Directive(NO_FLAGS, 0, 0, 1, 0);
    v, digits := IntegerOutput(c, d, [Number(n)], floats);
    NoFlagsCount(c);
    BareField(Absolute(v), v < 0, Base(c), c == 'X', digits);
    RepresentsWord(c, n, v);
    WholeNumeral(digits, Absolute(v), Base(c), c == 'X');
  }

  lemma {:induction false} SpecifierOf(c: char)
    requires c in {'d', 'i', 'u', 'x', 'X', 'o', 'b'}
    ensures c in "diuxXobcsp" && FlagText("")
  {
    assert "diuxXobcsp" == ['d', 'i', 'u', 'x', 'X', 'o', 'b', 'c', 's', 'p'];
  }

  lemma {:induction false} NoFlagsCount(c: char)
    ensures Counting(c, NO_FLAGS) == NO_FLAGS.(uppercase := c == 'X')
  {
  }

  lemma {:induction false} RepresentsWord(c: char, n: int, v: int)
    requires Represents(c, NO_FLAGS, n, v)
    ensures Absolute(v) < WORD_LIMIT
  {
  }

  lemma {:induction false} TenDigits(digits: string, value: nat)
    requires value < WORD_LIMIT && Numeral(digits, value, 10, false)
    ensures |digits| < NTOA_SIZE
  {
    hide AllDigits, Spelled, InCase, PowerOf;
    TenPower();
    if |digits| >= NTOA_SIZE {
      PowerMore(10, 10, |digits| - 11);
      assert false;
    }
  }

  lemma {:induction false} TenPower()
    ensures PowerOf(10, 10) == 10_000_000_000
  {
    assert PowerOf(10, 5) == 100_000;
    assert PowerOf(10, 8) == 1000 * PowerOf(10, 5);
  }

  /** `%d` and `%i`: a minus sign exactly for the negative values of 32 bits, and the magnitude in decimal. */
  lemma {:induction false} SignedFormat(c: char, n: int, floats: Floats) returns (v: int, digits: string)
    requires c == 'd' || c == 'i'
    ensures -0x8000_0000 <= v < 0x8000_0000 && (v - n) % WORD_LIMIT == 0
    ensures Numeral(digits, Absolute(v), 10, false)
    ensures TextFrom("%" + [c], [Number(n)], 0, 0, floats) == (if v < 0 then "-" else "") + digits
  {
    hide Numeral, TextFrom;
    v, digits := PlainFormat(c, n, floats);
    RepresentsWord(c, n, v);
    TenDigits(digits, Absolute(v));
  }

  /** `%u`, `%x`, `%X`, `%o` and `%b`: the value modulo 2^32 in the base and with the letters of the specifier. */
  lemma {:induction false} UnsignedFormats(c: char, n: int, floats: Floats)
    requires c in {'u', 'x', 'X', 'o', 'b'}
    ensures var base := if c == 'u' then 10 else if c == 'o' then 8 else if c == 'b' then 2 else 16;
      Numeral(TextFrom("%" + [c], [Number(n)], 0, 0, floats), n % WORD_LIMIT, base, c == 'X')
  {
    hide Numeral, TextFrom;
    var v, digits := PlainFormat(c, n, floats);
    assert "" + digits == digits;
    Divided(n, WORD_LIMIT);
    SameWord(v, n);
  }

  lemma {:induction false} SameWord(v: int, n: int)
    requires 0 <= v < WORD_LIMIT && (v - n) % WORD_LIMIT == 0
    ensures v == n % WORD_LIMIT
  {
  }

  /** `%p`: the value modulo 2^32 as eight hexadecimal digits with capital letters. */
  lemma {:induction false} PointerFormat(n: int, floats: Floats)
    ensures var t := TextFrom("%" + "p", [Number(n)], 0, 0, floats);
      |t| == 8 && AllDigits(t, 16) && InCase(t, true) && Spelled(t, 16) == n % WORD_LIMIT
  {
    hide TextFrom, NumberText, Filled, Dropped, Shows, FieldOf;
    assert "%" + "" + "" + ['p'] == "%" + "p";
    assert "diuxXobcsp" == ['d', 'i', 'u', 'x', 'X', 'o', 'b', 'c', 's', 'p'];
    OneDirective("", "", 'p', Number(n), floats);
    EmptyDirective([Number(n)]);
    var f := NO_FLAGS.(zeropad := true, uppercase := true);
    var digits := NumberShape(n % WORD_LIMIT, false, 16, 0, 8, f);
    EightDigits(n % WORD_LIMIT, digits);
  }

  lemma {:induction false} EightDigits(value: Word, digits: string)
    requires Shows(digits, value, 16, true)
    requires var f := NO_FLAGS.(zeropad := true, uppercase := true);
      |digits| == Filled(value, false, 16, 0, 8, f) - Dropped(value, false, 16, 0, 8, f)
    ensures |digits| == 8 && AllDigits(digits, 16) && InCase(digits, true) && Spelled(digits, 16) == value
    ensures FieldOf(value, false, 16, 8, NO_FLAGS.(zeropad := true, uppercase := true), digits) == digits
  {
    hide AllDigits, Spelled, InCase, Needed, PowerOf;
    SixteenPower();
    if Needed(value, 16) > 8 {
      PowerMore(16, 8, Needed(value, 16) - 9);
    }
    RemainderIs(value, PowerOf(16, 8), 0, value);
    assert "" + "" + digits == digits && "" + digits + "" == digits;
  }

  lemma {:induction false} SixteenPower()
    ensures PowerOf(16, 8) == WORD_LIMIT
  {
    assert PowerOf(16, 4) == 0x1_0000;
    assert PowerOf(16, 7) == 0x1000 * PowerOf(16, 4);
  }

  /** A text in a field of a width: behind blanks, or in front of them. */
  predicate InWidth(t: string, s: string, width: nat, left: bool) {
    && |t| == Larger(|s|, width)
    && (left ==> t[..|s|] == s && forall k | |s| <= k < |t| :: t[k] == ' ')
    && (!left ==> t[|t| - |s|..] == s && forall k | 0 <= k < |t| - |s| :: t[k] == ' ')
  }

  lemma {:induction false} FieldIs(s: string, width: nat, left: bool)
    ensures InWidth(Field(s, width, left), s, width, left)
  {
  }

  /** What `%s` and `%c` put out for any directive: the text up to the precision, or the character, in its field. */
  lemma {:induction false} TextOutput(c: char, d: Directive, args: seq<Arg>, floats: Floats)
    requires c == 's' || c == 'c'
    ensures var s := if c == 'c' then [(NumberArg(args, d.used) % 0x100) as char] else TextArg(args, d.used);
      var n := if c == 's' && d.flags.precision && d.prec < |s| then d.prec else |s|;
      InWidth(ConvertedText(c, d, args, floats), s[..n], d.width, d.flags.left)
  {
    hide InWidth, Field;
    var s := if c == 'c' then [(NumberArg(args, d.used) % 0x100) as char] else TextArg(args, d.used);
    var n := if c == 's' && d.flags.precision && d.prec < |s| then d.prec else |s|;
    assert s[..|s|] == s;
    FieldIs(s[..n], d.width, d.flags.left);
  }

  /** `%s` and `%c` with any width, and with the flag that fills from the left or without it. */
  lemma {:induction false} TextFormats(c: char, width: string, left: bool, arg: Arg, floats: Floats)
    requires (c == 's' && arg.Text?) || (c == 'c' && arg.Number?)
    requires width == "" || (NumeralText(width) && width[0] != '0' && Spelled(width, 10) < WORD_LIMIT)
    ensures width == "" || AllDigits(width, 10)
    ensures InWidth(TextFrom("%" + (if left then "-" else "") + width + [c], [arg], 0, 0, floats),
                    if c == 's' then arg.s else [(arg.n % 0x100) as char],
                    if width == "" then 0 else Spelled(width, 10), left)
  {
    hide InWidth, Field, TextFrom, Spelled, AllDigits;
    var flags := if left then "-" else "";
    assert FlagText(flags);
    assert "diuxXobcsp" == ['d', 'i', 'u', 'x', 'X', 'o', 'b', 'c', 's', 'p'];
    OneDirective(flags, width, c, arg, floats);
    var d := DirectiveOf(flags, width, "", "", [arg], 1, 0);
    NoStar(width);
    assert d.flags.left == left && !d.flags.precision && d.used == 0;
    WidthIs(flags, width, arg);
    FieldIs(if c == 's' then arg.s else [(arg.n % 0x100) as char], d.width, left);
  }

  lemma {:induction false} WidthIs(flags: string, width: string, arg: Arg)
    requires width == "" || (NumeralText(width) && Spelled(width, 10) < WORD_LIMIT)
    ensures DirectiveOf(flags, width, "", "", [arg], 1, 0).width ==
      if width == "" then 0 else Spelled(width, 10)
  {
    hide Spelled;
    NoStar(width);
  }

  lemma {:induction false} NoStar(width: string)
    requires width == "" || NumeralText(width)
    ensures width != "*"
  {
    hide Spelled;
    assert '*' in "*";
    assert !IsDigitIn('*', 10);
  }

  // ---- The prefix of a base ---------------------------------------------------------------------

  /** A number with a prefix and no precision loses its leading digits exactly when the width is as large as its
      digits fill, or one more when zeros are padded in base sixteen: what is dropped for the prefix is then more
      than padding. */
  lemma {:induction false} PrefixLosesIff(value: nat, base: nat, width: nat, f: Flags)
    requires 2 <= base <= 16 && 0 < value && Needed(value, base) < NTOA_SIZE
    requires f.hash && !f.precision && !f.plus && !f.space
    ensures var shown := Filled(value, false, base, 0, width, f) - Dropped(value, false, base, 0, width, f);
      var n := Needed(value, base);
      value >= PowerOf(base, shown) <==>
        width == n || (f.zeropad && !f.left && base == 16 && width == n + 1 && width <= NTOA_SIZE)
  {
    hide Needed, PowerOf;
    var shown := Filled(value, false, base, 0, width, f) - Dropped(value, false, base, 0, width, f);
    var n := Needed(value, base);
    assert n == 1 ==> PowerOf(base, 0) <= value by { PowerZero(base); }
    if shown < n {
      PowerMore(base, shown, n - 1 - shown);
    } else {
      PowerMore(base, n, shown - n);
    }
  }

  lemma {:induction false} PowerZero(base: nat)
    requires base > 0
    ensures PowerOf(base, 0) == 1
  {
  }

  /** Digits show the whole value exactly when it is below the power of their number. */
  lemma {:induction false} WholeIff(digits: string, value: nat, base: nat, uppercase: bool)
    requires base >= 2 && Shows(digits, value, base, uppercase)
    ensures Spelled(digits, base) == value <==> value < PowerOf(base, |digits|)
  {
    hide AllDigits, Spelled, PowerOf;
    Divided(value, PowerOf(base, |digits|));
    if value < PowerOf(base, |digits|) {
      RemainderIs(value, PowerOf(base, |digits|), 0, value);
    }
  }

  lemma {:induction false} FourDigits()
    ensures Digits(0x1234, 16, false, NTOA_SIZE) == ['4', '3', '2', '1']
  {
    assert Digits(0x1, 16, false, 29) == ['1'] + [];
    assert Digits(0x12, 16, false, 30) == ['2'] + Digits(0x1, 16, false, 29);
    assert Digits(0x123, 16, false, 31) == ['3'] + Digits(0x12, 16, false, 30);
    assert Digits(0x1234, 16, false, 32) == ['4'] + Digits(0x123, 16, false, 31);
  }

  lemma {:induction false} FourthWidth(arg: Arg)
    ensures FlagText("#") && NumeralText("4")
    ensures DirectiveOf("#", "4", "", "", [arg], 1, 0) == Directive(NO_FLAGS.(hash := true), 4, 0, 3, 0)
  {
    assert "#"[0] == '#' && "4"[0] == '4';
    assert forall c | c in "4" :: c == '4';
    assert forall c | c in "#" :: c == '#';
    assert "4"[..0] == "";
    assert Spelled("4", 10) == Spelled("", 10) * 10 + 4;
    assert '#' in "#";
  }

  lemma {:induction false} ShortNumber()
    ensures NumberText(0x1234, false, 16, 0, 4, NO_FLAGS.(hash := true)) == "0x34"
  {
    hide Digits;
    FourDigits();
    var b := Digits(0x1234, 16, false, NTOA_SIZE);
    assert Repeat('0', -4) == "" && Zeros(b, 0) == b;
    assert b[..3][..2] == ['4', '3'];
    assert NumberDigits(0x1234, false, 16, 0, 4, NO_FLAGS.(hash := true)) == ['4', '3', 'x', '0'];
    assert Reversed(['4', '3', 'x', '0']) == "0x34";
    assert Repeat(' ', 0) == "" && "" + "0x34" + "" == "0x34";
  }

  /** `%#4x` of 0x1234: the two leading digits give way to the prefix. */
  lemma {:induction false} PrefixDropsDigits(floats: Floats)
    ensures TextFrom("%" + "#" + "4" + "x", [Number(0x1234)], 0, 0, floats) == "0x34"
  {
    hide TextFrom, NumberText, DirectiveOf, NumeralText;
    assert "x" == ['x'] && "diuxXobcsp"[3] == 'x';
    FourthWidth(Number(0x1234));
    OneDirective("#", "4", 'x', Number(0x1234), floats);
    ShortNumber();
  }
}
