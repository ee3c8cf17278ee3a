/** Formatted output into a bounded buffer: the text a format describes, and what of it is written.  The loops
    put out one character after the other by way of a function that drops what does not fit; a number is
    converted into a small buffer of its own, lowest digit first, and put out in reverse.  Every loop is proved
    to extend the text written so far by a text that does not depend on the buffer or its size. */
module Printf {
  import Processor

  type Word = Processor.Word

  const WORD_LIMIT := Processor.WORD_LIMIT

  const NTOA_SIZE := 32
  const NUL := '\0'

  datatype Flags = Flags(zeropad: bool, left: bool, plus: bool, space: bool, hash: bool, uppercase: bool,
                         char_: bool, short: bool, long: bool, longLong: bool, precision: bool)

  const NO_FLAGS := Flags(false, false, false, false, false, false, false, false, false, false, false)

  datatype Arg = Number(n: int) | Text(s: string)

  // ----- Characters put out one by one -----

  /** The buffer holds the text as far as it fits, and what it held before elsewhere. */
  ghost predicate Written(buffer: array<char>, maxlen: nat, text: string, was: string)
    reads buffer
  {
    |was| == buffer.Length && maxlen <= buffer.Length &&
    forall i | 0 <= i < buffer.Length :: buffer[i] == if i < maxlen && i < |text| then text[i] else was[i]
  }

  /** One character, dropped when it does not fit. */
  method Out(buffer: array<char>, maxlen: nat, c: char, idx: nat, ghost text: string, ghost was: string)
    requires idx == |text| && Written(buffer, maxlen, text, was)
    modifies buffer
    ensures Written(buffer, maxlen, text + [c], was)
  {
    if idx < maxlen {
      buffer[idx] := c;
    }
  }

  function Repeat(c: char, n: int): (r: string)
    ensures |r| == if n > 0 then n else 0
  {
    seq(if n > 0 then n else 0, _ => c)
  }

  method OutRepeated(buffer: array<char>, maxlen: nat, c: char, n: int, start: nat, ghost text: string,
                     ghost was: string)
    returns (idx: nat)
    requires start == |text| && Written(buffer, maxlen, text, was)
    modifies buffer
    ensures idx == |text + Repeat(c, n)| && Written(buffer, maxlen, text + Repeat(c, n), was)
  {
    idx := start;
    var i := 0;
    assert text + Repeat(c, 0) == text;
    while i < n
      invariant 0 <= i && (if n > 0 then i <= n else i == 0) && idx == start + i
      invariant Written(buffer, maxlen, text + Repeat(c, i), was)
    {
      Out(buffer, maxlen, c, idx, text + Repeat(c, i), was);
      assert text + Repeat(c, i) + [c] == text + Repeat(c, i + 1);
      idx, i := idx + 1, i + 1;
    }
    if n <= 0 {
      assert i == 0 && Repeat(c, i) == Repeat(c, n);
    } else {
      assert i == n;
    }
  }

  method OutString(buffer: array<char>, maxlen: nat, s: string, start: nat, ghost text: string, ghost was: string)
    returns (idx: nat)
    requires start == |text| && Written(buffer, maxlen, text, was)
    modifies buffer
    ensures idx == |text + s| && Written(buffer, maxlen, text + s, was)
  {
    idx := start;
    var i := 0;
    assert text + s[..0] == text;
    while i < |s|
      invariant i <= |s| && idx == start + i
      invariant Written(buffer, maxlen, text + s[..i], was)
    {
      Out(buffer, maxlen, s[i], idx, text + s[..i], was);
      assert text + s[..i] + [s[i]] == text + s[..i + 1];
      idx, i := idx + 1, i + 1;
    }
    assert s[..i] == s;
  }

  // ----- Numbers -----

  function Reversed(s: string): (r: string)
    ensures |r| == |s| && forall i | 0 <= i < |s| :: r[i] == s[|s| - 1 - i]
  {
    seq(|s|, i requires 0 <= i < |s| => s[|s| - 1 - i])
  }

  /** The string reversed, padded with spaces to the width on the left or on the right. */
  function RevText(b: string, width: nat, f: Flags): string {
    Repeat(' ', if !f.left && !f.zeropad then width - |b| else 0) + Reversed(b) +
      Repeat(' ', if f.left then width - |b| else 0)
  }

  /** The characters from the last one on. */
  method OutDigits(buffer: array<char>, maxlen: nat, b: array<char>, len: nat, start: nat, ghost text: string,
                   ghost was: string)
    returns (idx: nat)
    requires start == |text| && Written(buffer, maxlen, text, was) && buffer != b && len <= b.Length
    modifies buffer
    ensures idx == |text + Reversed(b[..len])| && Written(buffer, maxlen, text + Reversed(b[..len]), was)
  {
    hide Written;
    idx := start;
    var k := len;
    assert text + Reversed(b[..len])[..0] == text;
    while k > 0
      invariant 0 <= k <= len && idx == |text| + (len - k)
      invariant Written(buffer, maxlen, text + Reversed(b[..len])[..len - k], was)
    {
      k := k - 1;
      Out(buffer, maxlen, b[k], idx, text + Reversed(b[..len])[..len - 1 - k], was);
      assert text + Reversed(b[..len])[..len - 1 - k] + [b[k]] == text + Reversed(b[..len])[..len - k];
      idx := idx + 1;
    }
    assert Reversed(b[..len])[..len] == Reversed(b[..len]);
  }

  method OutRev(buffer: array<char>, maxlen: nat, b: array<char>, len: nat, width: nat, f: Flags, start: nat,
                ghost text: string, ghost was: string)
    returns (idx: nat)
    requires start == |text| && Written(buffer, maxlen, text, was) && buffer != b && len <= b.Length
    modifies buffer
    ensures var t := text + RevText(b[..len], width, f); idx == |t| && Written(buffer, maxlen, t, was)
  {
    hide Written;
    ghost var pre := Repeat(' ', if !f.left && !f.zeropad then width - len else 0);
    ghost var chars := b[..len];
    idx := OutRepeated(buffer, maxlen, ' ', if !f.left && !f.zeropad then width - len else 0, start, text, was);
    idx := OutDigits(buffer, maxlen, b, len, idx, text + pre, was);
    assert b[..len] == chars;
    idx := OutRepeated(buffer, maxlen, ' ', if f.left then width - len else 0, idx, text + pre + Reversed(chars), was);
    assert text + pre + Reversed(chars) + Repeat(' ', if f.left then width - len else 0) ==
      text + RevText(chars, width, f);
  }

  function DigitChar(d: nat, uppercase: bool): char
    requires d < 16
  {
    if d < 10 then '0' + d as char else (if uppercase then 'A' else 'a') + (d - 10) as char
  }

  /** The digits of a number, lowest first, as many as there is room for. */
  function Digits(value: nat, base: nat, uppercase: bool, room: nat): (r: string)
    requires 2 <= base <= 16
    ensures |r| <= room
    decreases room
  {
    if room == 0 then []
    else
      [DigitChar(value % base, uppercase)] +
      (if value / base == 0 then [] else Digits(value / base, base, uppercase, room - 1))
  }

  /** Appending a character when there is room. */
  function Put(b: string, c: char): string {
    if |b| < NTOA_SIZE then b + [c] else b
  }

  /** Zeros up to a length, as far as there is room. */
  function Zeros(b: string, n: nat): string {
    b + Repeat('0', (if n < NTOA_SIZE then n else NTOA_SIZE) - |b|)
  }

  /** The width left when a sign will be put in front of padding zeros. */
  function SignWidth(width: nat, negative: bool, f: Flags): nat {
    if !f.left && width > 0 && f.zeropad && (negative || f.plus || f.space) then width - 1 else width
  }

  function Padded(b: string, prec: nat, width: nat, f: Flags): string {
    if f.left then b
    else
      var c := Zeros(b, prec);
      if f.zeropad then Zeros(c, width) else c
  }

  /** The prefix of the base; it takes the place of padding zeros. */
  function Hashed(b: string, base: nat, prec: nat, width: nat, f: Flags): string {
    if !f.hash then b
    else
      var b1 := if !f.precision && b != [] && (|b| == prec || |b| == width) then b[..|b| - 1] else b;
      var b2 :=
        if !f.precision && b != [] && (|b| == prec || |b| == width) && b1 != [] && base == 16
        then b1[..|b1| - 1] else b1;
      var b3 :=
        if base == 16 then Put(b2, if f.uppercase then 'X' else 'x') else if base == 2 then Put(b2, 'b') else b2;
      Put(b3, '0')
  }

  function Signed(b: string, negative: bool, f: Flags): string {
    if negative then Put(b, '-') else if f.plus then Put(b, '+') else if f.space then Put(b, ' ') else b
  }

  /** The converted number, lowest digit first. */
  function NumberDigits(value: nat, negative: bool, base: nat, prec: nat, width: nat, f: Flags): string
    requires 2 <= base <= 16
  {
    var g := if value == 0 then f.(hash := false) else f;
    var b := if !g.precision || value != 0 then Digits(value, base, g.uppercase, NTOA_SIZE) else [];
    var w := SignWidth(width, negative, g);
    Signed(Hashed(Padded(b, prec, w, g), base, prec, w, g), negative, g)
  }

  function NumberText(value: nat, negative: bool, base: nat, prec: nat, width: nat, f: Flags): string
    requires 2 <= base <= 16
  {
    RevText(NumberDigits(value, negative, base, prec, width, f),
            SignWidth(width, negative, if value == 0 then f.(hash := false) else f), f)
  }

  method ConvertDigits(b: array<char>, value: nat, base: nat, uppercase: bool) returns (len: nat)
    requires b.Length == NTOA_SIZE && 2 <= base <= 16
    modifies b
    ensures len <= NTOA_SIZE && b[..len] == Digits(value, base, uppercase, NTOA_SIZE)
  {
    hide DigitChar, Digits;
    ghost var whole := Digits(value, base, uppercase, NTOA_SIZE);
    OneMoreDigit(value, base, uppercase, NTOA_SIZE);
    var digit, v := DivMod(value, base);
    b[0] := DigitChar(digit, uppercase);
    len := 1;
    assert b[..1] == [b[0]];
    while v != 0 && len < NTOA_SIZE
      invariant 1 <= len <= NTOA_SIZE
      invariant whole == b[..len] + (if v == 0 then [] else Digits(v, base, uppercase, NTOA_SIZE - len))
      decreases NTOA_SIZE - len
    {
      ghost var done := b[..len];
      DigitStep(whole, done, v, base, uppercase, NTOA_SIZE - len);
      digit, v := DivMod(v, base);
      b[len] := DigitChar(digit, uppercase);
      assert b[..len + 1] == done + [DigitChar(digit, uppercase)];
      len := len + 1;
    }
  }

  /** One digit more has been written. */
  lemma {:induction false} DigitStep(whole: string, done: string, v: nat, base: nat, uppercase: bool, room: nat)
    requires 2 <= base <= 16 && room > 0 && v != 0
    requires whole == done + Digits(v, base, uppercase, room)
    ensures whole == (done + [DigitChar(v % base, uppercase)]) +
      (if v / base == 0 then [] else Digits(v / base, base, uppercase, room - 1))
  {
    hide DigitChar, Digits;
    OneMoreDigit(v, base, uppercase, room);
  }

  method DivMod(v: nat, base: nat) returns (digit: nat, rest: nat)
    requires base >= 2
    ensures digit == v % base && rest == v / base && digit < base
  {
    digit, rest := v % base, v / base;
  }

  lemma {:induction false} OneMoreDigit(v: nat, base: nat, uppercase: bool, room: nat)
    requires 2 <= base <= 16 && room > 0
    ensures Digits(v, base, uppercase, room) ==
      [DigitChar(v % base, uppercase)] + (if v / base == 0 then [] else Digits(v / base, base, uppercase, room - 1))
  {
  }

  /** buf[len++] = c, if there is room. */
  method PutInto(b: array<char>, len: nat, c: char) returns (k: nat)
    requires b.Length == NTOA_SIZE && len <= NTOA_SIZE
    modifies b
    ensures k <= NTOA_SIZE && b[..k] == Put(old(b[..len]), c)
  {
    k := len;
    if len < NTOA_SIZE {
      b[len] := c;
      k := len + 1;
      assert b[..k] == old(b[..len]) + [c];
    }
  }

  method PutZeros(b: array<char>, len: nat, n: nat) returns (k: nat)
    requires b.Length == NTOA_SIZE && len <= NTOA_SIZE
    modifies b
    ensures k <= NTOA_SIZE && b[..k] == Zeros(old(b[..len]), n)
  {
    k := len;
    assert b[..k] == old(b[..len]) + Repeat('0', 0);
    while k < n && k < NTOA_SIZE
      invariant len <= k <= NTOA_SIZE && (k > len ==> k <= n)
      invariant b[..k] == old(b[..len]) + Repeat('0', k - len)
    {
      ghost var done := b[..k];
      b[k] := '0';
      k := k + 1;
      assert b[..k] == done + ['0'];
      assert done + ['0'] == old(b[..len]) + Repeat('0', k - len);
    }
    assert Repeat('0', k - len) == Repeat('0', (if n < NTOA_SIZE then n else NTOA_SIZE) - len);
  }

  method PutHash(b: array<char>, start: nat, base: nat, prec: nat, width: nat, f: Flags) returns (len: nat)
    requires b.Length == NTOA_SIZE && start <= NTOA_SIZE
    modifies b
    ensures len <= NTOA_SIZE && b[..len] == Hashed(old(b[..start]), base, prec, width, f)
  {
    len := start;
    if f.hash {
      if !f.precision && len != 0 && (len == prec || len == width) {
        len := len - 1;
        assert b[..len] == old(b[..start])[..start - 1];
        if len != 0 && base == 16 {
          len := len - 1;
          assert b[..len] == old(b[..start])[..start - 1][..start - 2];
        }
      }
      if base == 16 {
        len := PutInto(b, len, if f.uppercase then 'X' else 'x');
      } else if base == 2 {
        len := PutInto(b, len, 'b');
      }
      len := PutInto(b, len, '0');
    }
  }

  /** Padding zeros, prefix and sign, and the result put out in reverse. */
  method FormatNumber(buffer: array<char>, maxlen: nat, b: array<char>, start: nat, negative: bool, base: nat,
                      prec: nat, width: nat, f: Flags, from: nat, ghost text: string, ghost was: string)
    returns (idx: nat)
    requires from == |text| && Written(buffer, maxlen, text, was) && buffer != b && b.Length == NTOA_SIZE
    requires start <= NTOA_SIZE
    modifies buffer, b
    ensures var w := SignWidth(width, negative, f);
      var digits := Signed(Hashed(Padded(old(b[..start]), prec, w, f), base, prec, w, f), negative, f);
      idx == |text + RevText(digits, w, f)| && Written(buffer, maxlen, text + RevText(digits, w, f), was)
  {
    hide Hashed, Zeros, Put, RevText;
    var len := start;
    var w := SignWidth(width, negative, f);
    if !f.left {
      len := PutZeros(b, len, prec);
      if f.zeropad {
        len := PutZeros(b, len, w);
      }
    }
    len := PutHash(b, len, base, prec, w, f);
    if negative {
      len := PutInto(b, len, '-');
    } else if f.plus {
      len := PutInto(b, len, '+');
    } else if f.space {
      len := PutInto(b, len, ' ');
    }
    idx := OutRev(buffer, maxlen, b, len, w, f, from, text, was);
  }

  /** Converts a number; with precision zero the number zero has no digits, and zero has no prefix. */
  method ConvertNumber(buffer: array<char>, maxlen: nat, value: nat, negative: bool, base: nat, prec: nat, width: nat,
                       f: Flags, from: nat, ghost text: string, ghost was: string)
    returns (idx: nat)
    requires from == |text| && Written(buffer, maxlen, text, was) && 2 <= base <= 16
    modifies buffer
    ensures var t := text + NumberText(value, negative, base, prec, width, f);
      idx == |t| && Written(buffer, maxlen, t, was)
  {
    hide Digits, Hashed, Padded, Signed;
    var g := if value == 0 then f.(hash := false) else f;
    var b := new char[NTOA_SIZE](_ => ' ');
    var len := 0;
    if !g.precision || value != 0 {
      len := ConvertDigits(b, value, base, g.uppercase);
    } else {
      assert b[..0] == [];
    }
    assert Written(buffer, maxlen, text, was);
    idx := FormatNumber(buffer, maxlen, b, len, negative, base, prec, width, g, from, text, was);
    SameRev(NumberDigits(value, negative, base, prec, width, f), SignWidth(width, negative, g), f, g);
  }

  lemma {:induction false} SameRev(b: string, width: nat, f: Flags, g: Flags)
    requires g == f || g == f.(hash := false)
    ensures RevText(b, width, f) == RevText(b, width, g)
  {
  }

  // ----- Reading numbers -----

  predicate IsDigit(c: char) {
    '0' <= c <= '9'
  }

  function Value(c: char): nat
    requires IsDigit(c)
  {
    c as int - '0' as int
  }

  /** The number the digits from i on spell, on top of what was read before, and where they end. */
  function ReadFrom(s: string, i: nat, so: Word): (r: (Word, nat))
    requires i <= |s|
    ensures i <= r.1 <= |s|
    decreases |s| - i
  {
    if i < |s| && IsDigit(s[i]) then ReadFrom(s, i + 1, (so * 10 + Value(s[i])) % WORD_LIMIT) else (so, i)
  }

  method Atoi(s: string, start: nat) returns (value: Word, end: nat)
    requires start <= |s|
    ensures (value, end) == ReadFrom(s, start, 0)
  {
    value, end := 0, start;
    while end < |s| && IsDigit(s[end])
      invariant start <= end <= |s| && ReadFrom(s, start, 0) == ReadFrom(s, end, value)
    {
      value, end := (value * 10 + Value(s[end])) % WORD_LIMIT, end + 1;
    }
  }

  // ----- Directives -----

  /** The character at i; the string ends with a zero. */
  function CharAt(s: string, i: nat): char {
    if i < |s| then s[i] else NUL
  }

  function ToInt(n: int): int {
    (n + 0x8000_0000) % WORD_LIMIT - 0x8000_0000
  }

  function NumberArg(args: seq<Arg>, k: nat): int {
    if k < |args| && args[k].Number? then args[k].n else 0
  }

  function TextArg(args: seq<Arg>, k: nat): string {
    if k < |args| && args[k].Text? then args[k].s else ""
  }

  function FlagOf(c: char, f: Flags): Flags {
    match c
    case '0' => f.(zeropad := true)
    case '-' => f.(left := true)
    case '+' => f.(plus := true)
    case ' ' => f.(space := true)
    case '#' => f.(hash := true)
    case _ => f
  }

  predicate IsFlag(c: char) {
    c in {'0', '-', '+', ' ', '#'}
  }

  /** What has been read of a directive: flags, width, precision, the place in the format and the number
      of arguments used. */
  datatype Directive = Directive(flags: Flags, width: Word, prec: Word, at: nat, used: nat)

  function FlagsFrom(s: string, d: Directive): (r: Directive)
    ensures r.at >= d.at
    decreases |s| - d.at
  {
    if d.at < |s| && IsFlag(s[d.at]) then FlagsFrom(s, d.(flags := FlagOf(s[d.at], d.flags), at := d.at + 1)) else d
  }

  function WidthFrom(s: string, args: seq<Arg>, d: Directive): (r: Directive)
    ensures r.at >= d.at
  {
    if d.at < |s| && IsDigit(s[d.at]) then
      var (w, i) := ReadFrom(s, d.at, 0);
      d.(width := w, at := i)
    else if CharAt(s, d.at) == '*' then
      var w := ToInt(NumberArg(args, d.used));
      if w < 0 then d.(flags := d.flags.(left := true), width := -w, at := d.at + 1, used := d.used + 1)
      else d.(width := w, at := d.at + 1, used := d.used + 1)
    else d
  }

  function PrecisionFrom(s: string, args: seq<Arg>, d: Directive): (r: Directive)
    ensures r.at >= d.at
  {
    if CharAt(s, d.at) != '.' then d
    else
      var e := d.(flags := d.flags.(precision := true), at := d.at + 1);
      if e.at < |s| && IsDigit(s[e.at]) then
        var (n, i) := ReadFrom(s, e.at, 0);
        e.(prec := n, at := i)
      else if CharAt(s, e.at) == '*' then
        var n := ToInt(NumberArg(args, e.used));
        e.(prec := if n > 0 then n else 0, at := e.at + 1, used := e.used + 1)
      else e
  }

  /** Sizes of a 32-bit target: long and size_t have four bytes, intmax_t eight. */
  function LengthFrom(s: string, d: Directive): (r: Directive)
    ensures r.at >= d.at
  {
    match CharAt(s, d.at)
    case 'l' =>
      if CharAt(s, d.at + 1) == 'l' then d.(flags := d.flags.(long := true, longLong := true), at := d.at + 2)
      else d.(flags := d.flags.(long := true), at := d.at + 1)
    case 'h' =>
      if CharAt(s, d.at + 1) == 'h' then d.(flags := d.flags.(short := true, char_ := true), at := d.at + 2)
      else d.(flags := d.flags.(short := true), at := d.at + 1)
    case 't' => d.(flags := d.flags.(long := true), at := d.at + 1)
    case 'j' => d.(flags := d.flags.(longLong := true), at := d.at + 1)
    case 'z' => d.(flags := d.flags.(long := true), at := d.at + 1)
    case _ => d
  }

  /** The directive behind a percent sign, up to its specifier. */
  function ParsedFrom(s: string, args: seq<Arg>, i: nat, used: nat): (d: Directive)
    ensures d.at >= i
  {
    LengthFrom(s, PrecisionFrom(s, args, WidthFrom(s, args, FlagsFrom(s, Directive(NO_FLAGS, 0, 0, i, used)))))
  }

  // ----- Conversions -----

  function BaseOf(c: char): (b: nat)
    ensures 2 <= b <= 16
  {
    if c == 'x' || c == 'X' then 16 else if c == 'o' then 8 else if c == 'b' then 2 else 10
  }

  predicate IsInteger(c: char) {
    c in {'d', 'i', 'u', 'x', 'X', 'o', 'b'}
  }

  predicate IsFloat(c: char) {
    c in {'f', 'F', 'e', 'E', 'g', 'G'}
  }

  predicate IsSigned(c: char) {
    c == 'd' || c == 'i'
  }

  function HashFor(c: char, f: Flags): Flags {
    if BaseOf(c) == 10 then f.(hash := false) else f
  }

  function CaseFor(c: char, f: Flags): Flags {
    if c == 'X' then f.(uppercase := true) else f
  }

  function SignsFor(c: char, f: Flags): Flags {
    if IsSigned(c) then f else f.(plus := false, space := false)
  }

  function ZerosFor(f: Flags): Flags {
    if f.precision then f.(zeropad := false) else f
  }

  function IntegerFlags(c: char, f: Flags): Flags {
    ZerosFor(SignsFor(c, CaseFor(c, HashFor(c, f))))
  }

  /** The value of an integer argument for its length; plain characters are unsigned. */
  function IntegerValue(c: char, f: Flags, n: int): int {
    if f.longLong then
      (if IsSigned(c) then (n + 0x8000_0000_0000_0000) % 0x1_0000_0000_0000_0000 - 0x8000_0000_0000_0000
        else n % 0x1_0000_0000_0000_0000)
    else if f.long then (if IsSigned(c) then ToInt(n) else n % WORD_LIMIT)
    else if f.char_ then n % 0x100
    else if f.short then (if IsSigned(c) then (n + 0x8000) % 0x1_0000 - 0x8000 else n % 0x1_0000)
    else if IsSigned(c) then ToInt(n) else n % WORD_LIMIT
  }

  function Magnitude(n: int): nat {
    if n > 0 then n else -n
  }

  function Shown(f: Flags, prec: nat, s: string): string {
    if f.precision && prec < |s| then s[..prec] else s
  }

  /** Something put out in a field, on its right or on its left. */
  function Field(s: string, width: nat, left: bool): string {
    if left then s + Repeat(' ', width - |s|) else Repeat(' ', width - |s|) + s
  }

  /** Floating-point conversions are given from outside. */
  type Floats = (char, Flags, Word, Word, seq<Arg>, nat) -> string

  /** The text of one directive. */
  function ConvertedText(c: char, d: Directive, args: seq<Arg>, floats: Floats): string {
    if IsInteger(c) then
      var f := IntegerFlags(c, d.flags);
      var n := IntegerValue(c, f, NumberArg(args, d.used));
      NumberText(Magnitude(n), n < 0, BaseOf(c), d.prec, d.width, f)
    else if IsFloat(c) then floats(c, d.flags, d.width, d.prec, args, d.used)
    else if c == 'c' then Field([((NumberArg(args, d.used) % 0x100) as char)], d.width, d.flags.left)
    else if c == 's' then Field(Shown(d.flags, d.prec, TextArg(args, d.used)), d.width, d.flags.left)
    else if c == 'p' then
      var f := d.flags.(zeropad := true, uppercase := true);
      NumberText(NumberArg(args, d.used) % WORD_LIMIT, false, 16, d.prec, 8, f)
    else [c]
  }

  predicate TakesArgument(c: char) {
    IsInteger(c) || IsFloat(c) || c == 'c' || c == 's' || c == 'p'
  }

  /** The text a format describes, from a place on; the size of the buffer does not enter. */
  function TextFrom(s: string, args: seq<Arg>, i: nat, used: nat, floats: Floats): string
    decreases |s| - i
  {
    if i >= |s| then []
    else if s[i] != '%' then [s[i]] + TextFrom(s, args, i + 1, used, floats)
    else
      var d := ParsedFrom(s, args, i + 1, used);
      var c := CharAt(s, d.at);
      ConvertedText(c, d, args, floats) +
        TextFrom(s, args, d.at + 1, if TakesArgument(c) then d.used + 1 else d.used, floats)
  }

  method ParseFlags(s: string, d: Directive) returns (r: Directive)
    ensures r == FlagsFrom(s, d)
  {
    r := d;
    while r.at < |s| && IsFlag(s[r.at])
      invariant FlagsFrom(s, d) == FlagsFrom(s, r)
      decreases |s| - r.at
    {
      r := r.(flags := FlagOf(s[r.at], r.flags), at := r.at + 1);
    }
  }

  method ParseWidth(s: string, args: seq<Arg>, d: Directive) returns (r: Directive)
    ensures r == WidthFrom(s, args, d)
  {
    r := d;
    if r.at < |s| && IsDigit(s[r.at]) {
      var w, i := Atoi(s, r.at);
      r := r.(width := w, at := i);
    } else if CharAt(s, r.at) == '*' {
      var w := ToInt(NumberArg(args, r.used));
      if w < 0 {
        r := r.(flags := r.flags.(left := true), width := -w);
      } else {
        r := r.(width := w);
      }
      r := r.(at := r.at + 1, used := r.used + 1);
    }
  }

  method ParsePrecision(s: string, args: seq<Arg>, d: Directive) returns (r: Directive)
    ensures r == PrecisionFrom(s, args, d)
  {
    r := d;
    if CharAt(s, r.at) == '.' {
      r := r.(flags := r.flags.(precision := true), at := r.at + 1);
      if r.at < |s| && IsDigit(s[r.at]) {
        var n, i := Atoi(s, r.at);
        r := r.(prec := n, at := i);
      } else if CharAt(s, r.at) == '*' {
        var n := ToInt(NumberArg(args, r.used));
        r := r.(prec := if n > 0 then n else 0, at := r.at + 1, used := r.used + 1);
      }
    }
  }

  method OutField(buffer: array<char>, maxlen: nat, s: string, width: nat, left: bool, start: nat, ghost text: string,
                  ghost was: string)
    returns (idx: nat)
    requires start == |text| && Written(buffer, maxlen, text, was)
    modifies buffer
    ensures idx == |text + Field(s, width, left)| && Written(buffer, maxlen, text + Field(s, width, left), was)
  {
    hide Repeat;
    idx := start;
    ghost var pad := Repeat(' ', width - |s|);
    if !left {
      idx := OutRepeated(buffer, maxlen, ' ', width - |s|, idx, text, was);
      idx := OutString(buffer, maxlen, s, idx, text + pad, was);
      assert text + pad + s == text + Field(s, width, left);
    } else {
      idx := OutString(buffer, maxlen, s, idx, text, was);
      idx := OutRepeated(buffer, maxlen, ' ', width - |s|, idx, text + s, was);
      assert text + s + pad == text + Field(s, width, left);
    }
  }

  method Convert(buffer: array<char>, maxlen: nat, c: char, d: Directive, args: seq<Arg>, floats: Floats, start: nat,
                 ghost text: string, ghost was: string)
    returns (idx: nat)
    requires start == |text| && Written(buffer, maxlen, text, was)
    modifies buffer
    ensures var t := text + ConvertedText(c, d, args, floats); idx == |t| && Written(buffer, maxlen, t, was)
  {
    hide NumberText, Field, IntegerValue, Written;
    if IsInteger(c) {
      var f := IntegerFlags(c, d.flags);
      var n := IntegerValue(c, f, NumberArg(args, d.used));
      idx := ConvertNumber(buffer, maxlen, Magnitude(n), n < 0, BaseOf(c), d.prec, d.width, f, start, text, was);
    } else if IsFloat(c) {
      idx := OutString(buffer, maxlen, floats(c, d.flags, d.width, d.prec, args, d.used), start, text, was);
    } else if c == 'c' {
      idx := OutField(buffer, maxlen, [((NumberArg(args, d.used) % 0x100) as char)], d.width, d.flags.left, start, text,
                      was);
    } else if c == 's' {
      idx := OutField(buffer, maxlen, Shown(d.flags, d.prec, TextArg(args, d.used)), d.width, d.flags.left, start, text,
                      was);
    } else if c == 'p' {
      var f := d.flags.(zeropad := true, uppercase := true);
      idx := ConvertNumber(buffer, maxlen, NumberArg(args, d.used) % WORD_LIMIT, false, 16, d.prec, 8, f, start, text,
                           was);
    } else {
      Out(buffer, maxlen, c, start, text, was);
      idx := start + 1;
    }
  }

  /** The longest beginning of a text that fits, then one zero, then what was there before. */
  function Bounded(text: string, maxlen: nat, was: string): string
    requires maxlen <= |was|
  {
    if maxlen == 0 then was
    else
      var n := if |text| < maxlen then |text| else maxlen - 1;
      text[..n] + [NUL] + was[n + 1..]
  }

  /** Whatever the size of the buffer, the result is the length of the whole text; the buffer holds as
      much of it as fits and one zero, and nothing is written behind. */
  method Vsnprintf(buffer: array<char>, maxlen: nat, format: string, args: seq<Arg>, floats: Floats) returns (idx: nat)
    requires maxlen <= buffer.Length
    modifies buffer
    ensures var text := TextFrom(format, args, 0, 0, floats);
      idx == |text| && buffer[..] == Bounded(text, maxlen, old(buffer[..]))
  {
    hide ConvertedText, ParsedFrom, TakesArgument;
    ghost var was, whole, text := buffer[..], TextFrom(format, args, 0, 0, floats), "";
    var i: nat, used: nat := 0, 0;
    idx := 0;
    assert "" + TextFrom(format, args, 0, 0, floats) == whole;
    while i < |format|
      invariant idx == |text| && Written(buffer, maxlen, text, was)
      invariant whole == text + TextFrom(format, args, i, used, floats)
      decreases |format| - i
    {
      ghost var rest := TextFrom(format, args, i, used, floats);
      if format[i] != '%' {
        Out(buffer, maxlen, format[i], idx, text, was);
        MoreText(text, [format[i]], rest, TextFrom(format, args, i + 1, used, floats));
        text := text + [format[i]];
        idx, i := idx + 1, i + 1;
      } else {
        var d := ParseDirective(format, args, i + 1, used);
        var c := CharAt(format, d.at);
        idx := Convert(buffer, maxlen, c, d, args, floats, idx, text, was);
        ghost var t := ConvertedText(c, d, args, floats);
        MoreText(text, t, rest,
                 TextFrom(format, args, d.at + 1, if TakesArgument(c) then d.used + 1 else d.used, floats));
        text := text + t;
        used := if TakesArgument(c) then d.used + 1 else d.used;
        i := d.at + 1;
      }
    }
    assert TextFrom(format, args, i, used, floats) == [];
    assert whole == text;
    Terminate(buffer, maxlen, idx, text, was);
  }

  method ParseDirective(s: string, args: seq<Arg>, i: nat, used: nat) returns (d: Directive)
    ensures d == ParsedFrom(s, args, i, used)
  {
    d := ParseFlags(s, Directive(NO_FLAGS, 0, 0, i, used));
    d := ParseWidth(s, args, d);
    d := ParsePrecision(s, args, d);
    d := LengthFrom(s, d);
  }

  lemma {:induction false} MoreText(text: string, t: string, rest: string, more: string)
    requires rest == t + more
    ensures text + rest == text + t + more
  {
  }

  /** The closing zero, at the end of the text or in the last place. */
  method Terminate(buffer: array<char>, maxlen: nat, idx: nat, ghost text: string, ghost was: string)
    requires idx == |text| && Written(buffer, maxlen, text, was)
    modifies buffer
    ensures buffer[..] == Bounded(text, maxlen, was)
  {
    if maxlen > 0 {
      var at := if idx < maxlen then idx else maxlen - 1;
      buffer[at] := NUL;
    }
  }
}
