/** Block transfers of the emulator: PUSH and POP, STMDB and LDM, word by word over registers and RAM.  The
    loops over the register list are methods on the register and memory buffers, proved equal to functions;
    what a store puts below the stack pointer a later load brings back. */
module BlockTransfers {
  import opened Arithmetic

  const SP := 13
  const LR := 14
  const PC := 15

  /** Registers r0 to r15, RAM, flash, and whether the return code is no longer OK. */
  datatype Core = Core(regs: seq<Word>, ram: seq<Byte>, flash: seq<Byte>, faulted: bool)

  /** Where RAM and flash lie. */
  datatype Layout = Layout(ram: Word, flash: Word)

  predicate Valid(c: Core) {
    |c.regs| == 16
  }

  predicate Inside(offset: Word, size: nat, address: Word, len: nat) {
    offset <= address && address + len <= offset + size
  }

  // ----- Words in memory -----

  function Little(b: seq<Byte>, at: nat): Word
    requires at + 4 <= |b|
  {
    (b[at] as int) + 0x100 * (b[at + 1] as int) + 0x1_0000 * (b[at + 2] as int) + 0x100_0000 * (b[at + 3] as int)
  }

  function Put(b: seq<Byte>, at: nat, w: Word): (r: seq<Byte>)
    requires at + 4 <= |b|
    ensures |r| == |b|
  {
    b[at := w % 0x100][at + 1 := w / 0x100 % 0x100][at + 2 := w / 0x1_0000 % 0x100][at + 3 := w / 0x100_0000]
  }

  lemma {:induction false} PutGet(b: seq<Byte>, at: nat, w: Word)
    requires at + 4 <= |b|
    ensures Little(Put(b, at, w), at) == w
    ensures forall k | 0 <= k < |b| && !(at <= k < at + 4) :: Put(b, at, w)[k] == b[k]
  {
    assert w == w % 0x100 + 0x100 * (w / 0x100);
    assert w / 0x100 == w / 0x100 % 0x100 + 0x100 * (w / 0x1_0000);
    assert w / 0x1_0000 == w / 0x1_0000 % 0x100 + 0x100 * (w / 0x100_0000);
  }

  /** The lowest byte comes first. */
  lemma {:induction false} LowestFirst(b: seq<Byte>, at: nat, w: Word)
    requires at + 4 <= |b|
    ensures var p := Put(b, at, w);
      p[at] as int + 0x100 * p[at + 1] as int + 0x1_0000 * p[at + 2] as int + 0x100_0000 * p[at + 3] as int == w
  {
    PutGet(b, at, w);
  }

  datatype Read = Read(value: Word, core: Core)

  /** RAM is looked at first, then flash; elsewhere the access faults and reads zero. */
  function ReadWord(m: Layout, c: Core, address: Word): Read {
    if c.faulted then Read(0, c)
    else if Inside(m.ram, |c.ram|, address, 4) then Read(Little(c.ram, address - m.ram), c)
    else if Inside(m.flash, |c.flash|, address, 4) then Read(Little(c.flash, address - m.flash), c)
    else Read(0, c.(faulted := true))
  }

  /** Only RAM may be written. */
  function WriteWord(m: Layout, c: Core, address: Word, w: Word): Core {
    if c.faulted then c
    else if Inside(m.ram, |c.ram|, address, 4) then c.(ram := Put(c.ram, address - m.ram, w))
    else c.(faulted := true)
  }

  function Aligned(w: Word): Word {
    w - w % 4
  }

  /** Writing a register; the stack pointer is kept aligned. */
  function WriteRegister(c: Core, r: nat, w: Word): (d: Core)
    requires Valid(c) && r < 16
    ensures Valid(d)
  {
    if c.faulted then c else c.(regs := c.regs[r := if r == SP then Aligned(w) else w])
  }

  /** A branch through a register value: the lowest bit must be set. */
  function WriteBranch(c: Core, w: Word): (d: Core)
    requires Valid(c)
    ensures Valid(d)
  {
    if w % 2 == 0 then c.(faulted := true) else WriteRegister(c, PC, w - 1)
  }

  // ----- Register lists -----

  function Bits(n: nat): nat {
    if n == 0 then 0 else n % 2 + Bits(n / 2)
  }

  /** mask >> i */
  function ShiftedDown(mask: nat, i: nat): nat {
    if i == 0 then mask else ShiftedDown(mask, i - 1) / 2
  }

  predicate Listed(mask: nat, i: nat) {
    ShiftedDown(mask, i) % 2 == 1
  }

  /** A register list has sixteen bits. */
  predicate IsList(mask: nat) {
    ShiftedDown(mask, 16) == 0
  }

  /** How many of the registers from i on are listed, PC left out. */
  function Listing(mask: nat, i: nat): nat
    decreases 15 - i
  {
    if i >= 15 then 0 else (if Listed(mask, i) then 1 else 0) + Listing(mask, i + 1)
  }

  /** The one bits of the mask are the listed registers. */
  lemma {:induction false} BitsListing(mask: nat, i: nat)
    requires i <= 15 && IsList(mask)
    ensures Bits(ShiftedDown(mask, i)) == Listing(mask, i) + Bit(Listed(mask, 15))
    decreases 15 - i
  {
    assert ShiftedDown(mask, i + 1) == ShiftedDown(mask, i) / 2;
    if i < 15 {
      BitsListing(mask, i + 1);
    }
  }

  // ----- The transfers -----

  /** Storing the listed registers from i on to ascending addresses. */
  function StoredFrom(m: Layout, c: Core, mask: nat, address: Word, i: nat): (d: Core)
    requires Valid(c)
    ensures Valid(d)
    decreases 15 - i
  {
    if i >= 15 then c
    else if Listed(mask, i) then
      StoredFrom(m, WriteWord(m, c, address, c.regs[i]), mask, (address + 4) % WORD_LIMIT, i + 1)
    else StoredFrom(m, c, mask, address, i + 1)
  }

  /** Loading the listed registers from i on from ascending addresses, and where the address ends. */
  function LoadedFrom(m: Layout, c: Core, mask: nat, address: Word, i: nat): (r: Read)
    requires Valid(c)
    ensures Valid(r.core)
    decreases 15 - i
  {
    if i >= 15 then Read(address, c)
    else if Listed(mask, i) then
      var r := ReadWord(m, c, address);
      LoadedFrom(m, WriteRegister(r.core, i, r.value), mask, (address + 4) % WORD_LIMIT, i + 1)
    else LoadedFrom(m, c, mask, address, i + 1)
  }

  function Lowered(w: Word, mask: nat): Word {
    (w - 4 * Bits(mask)) % WORD_LIMIT
  }

  /** PUSH, and STMDB with a base register: the registers below the base, and the base moved down. */
  function StoredBelow(m: Layout, c: Core, base: nat, mask: nat, wb: bool): (d: Core)
    requires Valid(c) && base < 16
    ensures Valid(d)
  {
    var start := Lowered(c.regs[base], mask);
    if start % 4 != 0 then c.(faulted := true)
    else
      var d := StoredFrom(m, c, mask, start, 0);
      if wb then WriteRegister(d, base, start) else d
  }

  /** PC is loaded last, as a branch. */
  function LoadedAll(m: Layout, c: Core, mask: nat, address: Word): (r: Read)
    requires Valid(c)
    ensures Valid(r.core)
  {
    var r := LoadedFrom(m, c, mask, address, 0);
    if Listed(mask, PC) then
      var p := ReadWord(m, r.core, r.value);
      Read(r.value, WriteBranch(p.core, p.value))
    else r
  }

  /** LDM with a base register: the base is set to where the address of the loop ended. */
  function LoadedAbove(m: Layout, c: Core, base: nat, mask: nat, wb: bool): (d: Core)
    requires Valid(c) && base < 16
    ensures Valid(d)
  {
    var start := c.regs[base];
    if start % 4 != 0 then c.(faulted := true)
    else
      var r := LoadedAll(m, c, mask, start);
      if wb then WriteRegister(r.core, base, r.value) else r.core
  }

  /** POP: the stack pointer is set to its old value and four for each bit of the list. */
  function Popped(m: Layout, c: Core, mask: nat): (d: Core)
    requires Valid(c)
    ensures Valid(d)
  {
    var start := c.regs[SP];
    if start % 4 != 0 then c.(faulted := true)
    else WriteRegister(LoadedAll(m, c, mask, start).core, SP, (start + 4 * Bits(mask)) % WORD_LIMIT)
  }

  // ----- Round trip -----

  /** The listed registers from i on lie in RAM from an address on, as words. */
  predicate Holds(m: Layout, ram: seq<Byte>, mask: nat, address: nat, i: nat, regs: seq<Word>)
    requires |regs| == 16
    decreases 15 - i
  {
    i >= 15 ||
    if Listed(mask, i) then
      m.ram <= address && address + 4 <= m.ram + |ram| && Little(ram, address - m.ram) == regs[i] &&
      Holds(m, ram, mask, address + 4, i + 1, regs)
    else Holds(m, ram, mask, address, i + 1, regs)
  }

  /** The bytes outside a range of addresses are the same. */
  predicate SameOutside(m: Layout, a: seq<Byte>, b: seq<Byte>, from: nat, to: nat) {
    |a| == |b| && forall k | 0 <= k < |a| && !(from <= m.ram + k < to) :: a[k] == b[k]
  }

  /** One register of the list, and the rest. */
  lemma {:induction false} StoredNext(m: Layout, c: Core, mask: nat, address: Word, i: nat)
    requires Valid(c) && i < 15
    ensures Listed(mask, i) ==> Listing(mask, i) == 1 + Listing(mask, i + 1)
    ensures Listed(mask, i) && address + 4 < WORD_LIMIT ==>
      Valid(WriteWord(m, c, address, c.regs[i])) &&
      StoredFrom(m, c, mask, address, i) ==
        StoredFrom(m, WriteWord(m, c, address, c.regs[i]), mask, address + 4, i + 1)
    ensures !Listed(mask, i) ==>
      Listing(mask, i) == Listing(mask, i + 1) &&
      StoredFrom(m, c, mask, address, i) == StoredFrom(m, c, mask, address, i + 1)
  {
    hide Listed, Put;
  }

  lemma {:induction false} HoldsNext(m: Layout, ram: seq<Byte>, mask: nat, address: nat, i: nat, regs: seq<Word>)
    requires |regs| == 16 && i < 15
    ensures Listed(mask, i) && m.ram <= address && address + 4 <= m.ram + |ram| &&
            Little(ram, address - m.ram) == regs[i] && Holds(m, ram, mask, address + 4, i + 1, regs) ==>
      Holds(m, ram, mask, address, i, regs)
    ensures !Listed(mask, i) && Holds(m, ram, mask, address, i + 1, regs) ==> Holds(m, ram, mask, address, i, regs)
  {
    hide Listed, Little;
  }

  /** Storing puts the listed registers at their addresses, and writes nothing else. */
  lemma {:induction false} StoredHolds(m: Layout, c: Core, mask: nat, address: nat, i: nat)
    requires Valid(c) && !c.faulted && i <= 15
    requires m.ram <= address && address + 4 * Listing(mask, i) <= m.ram + |c.ram| && m.ram + |c.ram| < WORD_LIMIT
    ensures var d := StoredFrom(m, c, mask, address, i);
      && !d.faulted && d.regs == c.regs && d.flash == c.flash
      && SameOutside(m, c.ram, d.ram, address, address + 4 * Listing(mask, i))
      && Holds(m, d.ram, mask, address, i, c.regs)
    decreases 15 - i
  {
    hide Listed, WriteWord, SameOutside, Put, Little, StoredFrom, Listing, Holds;
    if i >= 15 {
      NothingStored(m, c, mask, address);
    } else {
      var d := StoredFrom(m, c, mask, address, i);
      StoredNext(m, c, mask, address, i);
      HoldsNext(m, d.ram, mask, address, i, c.regs);
      if Listed(mask, i) {
        var e := WriteWord(m, c, address, c.regs[i]);
        WordWritten(m, c, address, c.regs[i]);
        StoredHolds(m, e, mask, address + 4, i + 1);
        LaterWrites(m, c.ram, e.ram, d.ram, address, address + 4 * Listing(mask, i));
      } else {
        StoredHolds(m, c, mask, address, i + 1);
      }
    }
  }

  lemma {:induction false} NothingStored(m: Layout, c: Core, mask: nat, address: Word)
    requires Valid(c)
    ensures Listing(mask, 15) == 0 && StoredFrom(m, c, mask, address, 15) == c
    ensures SameOutside(m, c.ram, c.ram, address, address) && Holds(m, c.ram, mask, address, 15, c.regs)
  {
  }

  lemma {:induction false} WordWritten(m: Layout, c: Core, address: Word, w: Word)
    requires !c.faulted && Inside(m.ram, |c.ram|, address, 4)
    ensures var e := WriteWord(m, c, address, w);
      && !e.faulted && e.regs == c.regs && e.flash == c.flash && |e.ram| == |c.ram|
      && Little(e.ram, address - m.ram) == w && SameOutside(m, c.ram, e.ram, address, address + 4)
  {
    hide Put, Little;
    PutGet(c.ram, address - m.ram, w);
  }

  lemma {:induction false} LaterWrites(m: Layout, a: seq<Byte>, b: seq<Byte>, d: seq<Byte>, address: nat, to: nat)
    requires m.ram <= address && address + 4 <= m.ram + |a| && address + 4 <= to
    requires SameOutside(m, a, b, address, address + 4) && SameOutside(m, b, d, address + 4, to)
    ensures |d| == |a| && SameOutside(m, a, d, address, to) && Little(d, address - m.ram) == Little(b, address - m.ram)
  {
    hide Little;
    LittleSame(b, d, address - m.ram);
  }

  lemma {:induction false} LittleSame(a: seq<Byte>, b: seq<Byte>, at: nat)
    requires |a| == |b| && at + 4 <= |a| && forall k | at <= k < at + 4 :: a[k] == b[k]
    ensures Little(a, at) == Little(b, at)
  {
  }

  /** Registers the list names take the stored values, the others stay. */
  predicate Restored(mask: nat, i: nat, before: seq<Word>, stored: seq<Word>, after: seq<Word>)
    requires |before| == |stored| == |after| == 16
  {
    forall r | 0 <= r < 16 :: after[r] == if i <= r < 15 && Listed(mask, r) then stored[r] else before[r]
  }

  lemma {:induction false} LoadedRestores(m: Layout, c: Core, mask: nat, address: nat, i: nat, regs: seq<Word>)
    requires Valid(c) && !c.faulted && |regs| == 16 && i <= 15 && !Listed(mask, SP)
    requires address + 4 * Listing(mask, i) < WORD_LIMIT
    requires Holds(m, c.ram, mask, address, i, regs)
    ensures var r := LoadedFrom(m, c, mask, address, i);
      && !r.core.faulted && r.core.ram == c.ram && r.core.flash == c.flash
      && r.value == address + 4 * Listing(mask, i)
      && Restored(mask, i, c.regs, regs, r.core.regs)
    decreases 15 - i
  {
    hide Little, Listed, ReadWord, WriteRegister, Restored, Holds;
    if i >= 15 {
      NothingRestored(mask, i, c.regs, regs);
    } else if Listed(mask, i) {
      OneHeld(m, c, mask, address, i, regs);
      var d := WriteRegister(c, i, regs[i]);
      Written(c, i, regs[i]);
      LoadedRestores(m, d, mask, address + 4, i + 1, regs);
      assert LoadedFrom(m, c, mask, address, i) == LoadedFrom(m, d, mask, address + 4, i + 1);
      RestoredMore(mask, i, c.regs, regs, LoadedFrom(m, c, mask, address, i).core.regs);
    } else {
      NoneHeld(m, c, mask, address, i, regs);
      LoadedRestores(m, c, mask, address, i + 1, regs);
      RestoredMore(mask, i, c.regs, regs, LoadedFrom(m, c, mask, address, i).core.regs);
    }
  }

  lemma {:induction false} NothingRestored(mask: nat, i: nat, before: seq<Word>, stored: seq<Word>)
    requires i >= 15 && |before| == |stored| == 16
    ensures Restored(mask, i, before, stored, before)
  {
  }

  lemma {:induction false} RestoredMore(mask: nat, i: nat, before: seq<Word>, stored: seq<Word>, after: seq<Word>)
    requires i < 15 && |before| == |stored| == |after| == 16
    requires Restored(mask, i + 1, if Listed(mask, i) then before[i := stored[i]] else before, stored, after)
    ensures Restored(mask, i, before, stored, after)
  {
    hide Listed;
  }

  lemma {:induction false} Written(c: Core, r: nat, w: Word)
    requires Valid(c) && r < 16 && !c.faulted && r != SP
    ensures WriteRegister(c, r, w) == c.(regs := c.regs[r := w])
  {
  }

  lemma {:induction false} OneHeld(m: Layout, c: Core, mask: nat, address: nat, i: nat, regs: seq<Word>)
    requires |regs| == 16 && !c.faulted && i < 15 && address < WORD_LIMIT && Listed(mask, i)
    requires Holds(m, c.ram, mask, address, i, regs)
    ensures ReadWord(m, c, address) == Read(regs[i], c) && Holds(m, c.ram, mask, address + 4, i + 1, regs)
  {
    hide Little, Listed;
  }

  lemma {:induction false} NoneHeld(m: Layout, c: Core, mask: nat, address: nat, i: nat, regs: seq<Word>)
    requires |regs| == 16 && i < 15 && !Listed(mask, i) && Holds(m, c.ram, mask, address, i, regs)
    ensures Holds(m, c.ram, mask, address, i + 1, regs)
  {
    hide Little, Listed;
  }

  lemma {:induction false} BitsOf(mask: nat)
    requires IsList(mask)
    ensures Bits(mask) == Listing(mask, 0) + Bit(Listed(mask, 15))
  {
    BitsListing(mask, 0);
  }

  /** The list has neither SP nor PC, and the room below the base is aligned and in RAM. */
  predicate Fits(m: Layout, c: Core, base: nat, mask: nat) {
    && Valid(c) && !c.faulted && base < 15
    && IsList(mask) && !Listed(mask, PC) && !Listed(mask, SP)
    && c.regs[base] % 4 == 0 && m.ram + |c.ram| < WORD_LIMIT
    && m.ram + 4 * Bits(mask) <= c.regs[base] <= m.ram + |c.ram|
  }

  /** Storing below the base moves it down, writes only the bytes it moved over, and leaves the list there. */
  lemma {:induction false} StoresBelow(m: Layout, c: Core, base: nat, mask: nat)
    requires Fits(m, c, base, mask)
    ensures var d, low := StoredBelow(m, c, base, mask, true), c.regs[base] - 4 * Bits(mask);
      && !d.faulted && d.regs == c.regs[base := low] && SameOutside(m, c.ram, d.ram, low, c.regs[base])
      && Holds(m, d.ram, mask, low, 0, c.regs)
  {
    hide ShiftedDown, Bits, StoredFrom, Holds, SameOutside, Listing, Listed;
    BitsOf(mask);
    StoredHolds(m, c, mask, c.regs[base] - 4 * Bits(mask), 0);
  }

  /** What loading a list brings back. */
  predicate BroughtBack(base: nat, mask: nat, was: Core, later: Core, e: Core)
    requires Valid(was) && Valid(later) && Valid(e) && base < 15
  {
    && !e.faulted && e.ram == later.ram && e.regs[base] == was.regs[base]
    && (forall r | 0 <= r < 15 && Listed(mask, r) :: e.regs[r] == was.regs[r])
    && (forall r | 0 <= r < 16 && r != base && !Listed(mask, r) :: e.regs[r] == later.regs[r])
  }

  /** PUSH writes only the bytes below the old stack pointer that it moves over, and POP of the same list
      brings back every listed register and the stack pointer, whatever happened to the registers in
      between. */
  lemma {:induction false} PushPop(m: Layout, c: Core, mask: nat, later: Core)
    requires Fits(m, c, SP, mask)
    requires var d := StoredBelow(m, c, SP, mask, true);
      Valid(later) && !later.faulted && later.ram == d.ram && later.regs[SP] == d.regs[SP]
    ensures var d, low := StoredBelow(m, c, SP, mask, true), c.regs[SP] - 4 * Bits(mask);
      !d.faulted && d.regs == c.regs[SP := low] && SameOutside(m, c.ram, d.ram, low, c.regs[SP])
    ensures BroughtBack(SP, mask, c, later, Popped(m, later, mask))
  {
    hide ShiftedDown, Bits, StoredFrom, LoadedFrom, Holds, SameOutside, StoredBelow, Listing;
    BitsOf(mask);
    StoresBelow(m, c, SP, mask);
    var low := c.regs[SP] - 4 * Bits(mask);
    LoadedRestores(m, later, mask, low, 0, c.regs);
  }

  /** The same for STMDB and LDM with writeback and any base register that is not in the list. */
  lemma {:induction false} StoreLoad(m: Layout, c: Core, base: nat, mask: nat, later: Core)
    requires Fits(m, c, base, mask) && !Listed(mask, base)
    requires var d := StoredBelow(m, c, base, mask, true);
      Valid(later) && !later.faulted && later.ram == d.ram && later.regs[base] == d.regs[base]
    ensures var d, low := StoredBelow(m, c, base, mask, true), c.regs[base] - 4 * Bits(mask);
      !d.faulted && d.regs == c.regs[base := low] && SameOutside(m, c.ram, d.ram, low, c.regs[base])
    ensures BroughtBack(base, mask, c, later, LoadedAbove(m, later, base, mask, true))
  {
    hide ShiftedDown, Bits, StoredFrom, LoadedFrom, Holds, SameOutside, StoredBelow, Listing;
    BitsOf(mask);
    StoresBelow(m, c, base, mask);
    var low := c.regs[base] - 4 * Bits(mask);
    LoadedRestores(m, later, mask, low, 0, c.regs);
  }

  // ----- Calls and returns -----

  /** `back` is the list with PC in the place of LR. */
  predicate ReturnList(mask: nat, back: nat) {
    && IsList(back) && Listed(mask, LR) && !Listed(back, LR) && Listed(back, PC)
    && forall i | 0 <= i < LR :: Listed(back, i) == Listed(mask, i)
  }

  /** Behind the other registers lies the word of LR. */
  lemma {:induction false} HoldsReturn(m: Layout, ram: seq<Byte>, mask: nat, back: nat, address: nat, i: nat,
                                       regs: seq<Word>)
    requires |regs| == 16 && i <= LR && ReturnList(mask, back) && Holds(m, ram, mask, address, i, regs)
    ensures Holds(m, ram, back, address, i, regs) && Listing(mask, i) == Listing(back, i) + 1
    ensures var last := address + 4 * Listing(back, i);
      m.ram <= last && last + 4 <= m.ram + |ram| && Little(ram, last - m.ram) == regs[LR]
    decreases LR - i
  {
    hide Listed, Little, IsList;
    if i < LR {
      HoldsReturn(m, ram, mask, back, if Listed(mask, i) then address + 4 else address, i + 1, regs);
    }
  }

  /** Returning through the stored word `target`: the listed registers are back, and PC is the target with its
      lowest bit cleared if that bit was set; otherwise the transfer faults and leaves base and PC alone. */
  predicate Returned(base: nat, end: Word, back: nat, target: Word, was: Core, later: Core, e: Core)
    requires Valid(was) && Valid(later) && Valid(e) && base < 15
  {
    && (e.faulted <==> target % 2 == 0)
    && (!e.faulted ==> e.regs[PC] == target - 1 && e.regs[base] == end)
    && (e.faulted ==> e.regs[PC] == later.regs[PC] && e.regs[base] == later.regs[base])
    && e.ram == later.ram && e.flash == later.flash
    && (forall r | 0 <= r < 15 && r != base :: e.regs[r] == if Listed(back, r) then was.regs[r] else later.regs[r])
  }

  /** The same of the load before the base is written. */
  predicate Reloaded(back: nat, regs: seq<Word>, later: Core, e: Core)
    requires Valid(later) && Valid(e) && |regs| == 16
  {
    && (e.faulted <==> regs[LR] % 2 == 0) && e.ram == later.ram && e.flash == later.flash
    && e.regs[PC] == (if e.faulted then later.regs[PC] else regs[LR] - 1)
    && forall i | 0 <= i < 15 :: e.regs[i] == if Listed(back, i) then regs[i] else later.regs[i]
  }

  /** Loading the list that names PC. */
  lemma {:induction false} LoadedReturn(m: Layout, c: Core, mask: nat, back: nat, address: Word, regs: seq<Word>)
    requires Valid(c) && !c.faulted && |regs| == 16 && !Listed(mask, SP) && ReturnList(mask, back)
    requires address + 4 * Listing(mask, 0) < WORD_LIMIT && Holds(m, c.ram, mask, address, 0, regs)
    ensures LoadedAll(m, c, back, address).value == address + 4 * Listing(back, 0)
    ensures Reloaded(back, regs, c, LoadedAll(m, c, back, address).core)
  {
    hide Listed, Little, Holds, LoadedFrom, Listing, IsList;
    HoldsReturn(m, c.ram, mask, back, address, 0, regs);
    LoadedRestores(m, c, back, address, 0, regs);
  }

  lemma {:induction false} ReturnBits(mask: nat, back: nat)
    requires IsList(mask) && !Listed(mask, PC) && ReturnList(mask, back) && Listing(mask, 0) == Listing(back, 0) + 1
    ensures Bits(back) == Bits(mask) == Listing(back, 0) + 1
  {
    BitsOf(mask);
    BitsOf(back);
  }

  /** A function that pushes its link register and pops PC in its place returns to where LR pointed: the stack
      pointer and the other listed registers are back, and it faults exactly when the lowest bit was clear. */
  lemma {:induction false} CallReturn(m: Layout, c: Core, mask: nat, back: nat, later: Core)
    requires Fits(m, c, SP, mask) && ReturnList(mask, back)
    requires var d := StoredBelow(m, c, SP, mask, true);
      Valid(later) && !later.faulted && later.ram == d.ram && later.regs[SP] == d.regs[SP]
    ensures Returned(SP, c.regs[SP], back, c.regs[LR], c, later, Popped(m, later, back))
  {
    hide ShiftedDown, Listed, IsList, Bits, StoredFrom, LoadedAll, Holds, SameOutside, StoredBelow, Listing;
    BitsOf(mask);
    StoresBelow(m, c, SP, mask);
    var low := c.regs[SP] - 4 * Bits(mask);
    HoldsReturn(m, later.ram, mask, back, low, 0, c.regs);
    ReturnBits(mask, back);
    LoadedReturn(m, later, mask, back, low, c.regs);
  }

  /** The same by STMDB and LDM with writeback, except that the base comes back one word short: the address is
      not advanced past the word of PC. */
  lemma {:induction false} StoreReturn(m: Layout, c: Core, base: nat, mask: nat, back: nat, later: Core)
    requires Fits(m, c, base, mask) && !Listed(mask, base) && ReturnList(mask, back) && base != SP
    requires var d := StoredBelow(m, c, base, mask, true);
      Valid(later) && !later.faulted && later.ram == d.ram && later.regs[base] == d.regs[base]
    ensures c.regs[base] >= 4
    ensures Returned(base, c.regs[base] - 4, back, c.regs[LR], c, later, LoadedAbove(m, later, base, back, true))
  {
    hide ShiftedDown, Listed, IsList, Bits, StoredFrom, LoadedAll, Holds, SameOutside, StoredBelow, Listing;
    BitsOf(mask);
    StoresBelow(m, c, base, mask);
    var low := c.regs[base] - 4 * Bits(mask);
    HoldsReturn(m, later.ram, mask, back, low, 0, c.regs);
    ReturnBits(mask, back);
    LoadedReturn(m, later, mask, back, low, c.regs);
  }

  lemma {:induction false} Onwards(address: Word, n: nat)
    ensures ((address + 4) % WORD_LIMIT + n) % WORD_LIMIT == (address + 4 + n) % WORD_LIMIT
  {
  }

  lemma {:induction false} LoadedEnds(m: Layout, c: Core, mask: nat, address: Word, i: nat)
    requires Valid(c) && i <= 15
    ensures LoadedFrom(m, c, mask, address, i).value == (address + 4 * Listing(mask, i)) % WORD_LIMIT
    decreases 15 - i
  {
    hide Listed, Little, WriteRegister;
    if i < 15 {
      if Listed(mask, i) {
        var r := ReadWord(m, c, address);
        LoadedEnds(m, WriteRegister(r.core, i, r.value), mask, (address + 4) % WORD_LIMIT, i + 1);
        Onwards(address, 4 * Listing(mask, i + 1));
      } else {
        LoadedEnds(m, c, mask, address, i + 1);
      }
    }
  }

  /** LDM with writeback moves its base by four for each listed register, PC included, if and only if PC is not
      listed. */
  lemma {:induction false} LoadMovesBaseIff(m: Layout, c: Core, base: nat, mask: nat)
    requires Valid(c) && base < 15 && IsList(mask) && c.regs[base] % 4 == 0
    requires !LoadedAbove(m, c, base, mask, true).faulted
    ensures LoadedAbove(m, c, base, mask, true).regs[base] == (c.regs[base] + 4 * Bits(mask)) % WORD_LIMIT <==>
      !Listed(mask, PC)
  {
    hide ShiftedDown, Listed, IsList, Bits, LoadedFrom, Listing, ReadWord;
    BitsOf(mask);
    LoadedEnds(m, c, mask, c.regs[base], 0);
  }

  // ----- Faults -----

  predicate Readable(m: Layout, c: Core, address: Word) {
    Inside(m.ram, |c.ram|, address, 4) || Inside(m.flash, |c.flash|, address, 4)
  }

  /** The address of word `j` of a transfer. */
  function WordAt(address: Word, j: nat): Word {
    (address + 4 * j) % WORD_LIMIT
  }

  lemma {:induction false} WordAfter(address: Word, next: Word, j: nat)
    requires next == (address + 4) % WORD_LIMIT
    ensures WordAt(next, j) == WordAt(address, j + 1) && WordAt(address, 0) == address
  {
    Onwards(address, 4 * j);
  }

  lemma {:induction false} FaultedStays(m: Layout, c: Core, mask: nat, address: Word, i: nat)
    requires Valid(c) && c.faulted && i <= 15
    ensures StoredFrom(m, c, mask, address, i) == LoadedFrom(m, c, mask, address, i).core == c
    decreases 15 - i
  {
    hide Listed;
    if i < 15 {
      FaultedStays(m, c, mask, address, i + 1);
      FaultedStays(m, c, mask, (address + 4) % WORD_LIMIT, i + 1);
    }
  }

  /** A property of all words of a list is one of its first word and of the others. */
  lemma {:induction false} FirstWord(ok: Word -> bool, address: Word, next: Word, n: nat)
    requires next == (address + 4) % WORD_LIMIT
    ensures (forall j: nat | j < n + 1 :: ok(WordAt(address, j))) <==>
      ok(address) && forall j: nat | j < n :: ok(WordAt(next, j))
  {
    hide WordAt;
    WordAfter(address, next, 0);
    forall j: nat | j < n
      ensures WordAt(next, j) == WordAt(address, j + 1)
    {
      WordAfter(address, next, j);
    }
    forall j: nat | 0 < j < n + 1
      ensures WordAt(address, j) == WordAt(next, j - 1)
    {
      WordAfter(address, next, j - 1);
    }
  }

  lemma {:induction false} StoringFaults(m: Layout, c: Core, mask: nat, address: Word, i: nat)
    requires Valid(c) && !c.faulted && i <= 15
    ensures !StoredFrom(m, c, mask, address, i).faulted <==>
      forall j: nat | j < Listing(mask, i) :: Inside(m.ram, |c.ram|, WordAt(address, j), 4)
    decreases 15 - i
  {
    hide Listed, Put, WordAt, Inside;
    if i < 15 {
      if Listed(mask, i) {
        var d := WriteWord(m, c, address, c.regs[i]);
        FirstWord((a: Word) => Inside(m.ram, |c.ram|, a, 4), address, (address + 4) % WORD_LIMIT, Listing(mask, i + 1));
        if d.faulted {
          FaultedStays(m, d, mask, (address + 4) % WORD_LIMIT, i + 1);
        } else {
          StoringFaults(m, d, mask, (address + 4) % WORD_LIMIT, i + 1);
        }
      } else {
        StoringFaults(m, c, mask, address, i + 1);
      }
    }
  }

  lemma {:induction false} LoadingFaults(m: Layout, c: Core, mask: nat, address: Word, i: nat)
    requires Valid(c) && !c.faulted && i <= 15
    ensures !LoadedFrom(m, c, mask, address, i).core.faulted <==>
      forall j: nat | j < Listing(mask, i) :: Readable(m, c, WordAt(address, j))
    ensures var d := LoadedFrom(m, c, mask, address, i).core; d.ram == c.ram && d.flash == c.flash
    decreases 15 - i
  {
    hide Listed, Little, WordAt, Inside;
    if i < 15 {
      if Listed(mask, i) {
        var r := ReadWord(m, c, address);
        var d := WriteRegister(r.core, i, r.value);
        FirstWord((a: Word) => Readable(m, c, a), address, (address + 4) % WORD_LIMIT, Listing(mask, i + 1));
        if d.faulted {
          FaultedStays(m, d, mask, (address + 4) % WORD_LIMIT, i + 1);
        } else {
          LoadingFaults(m, d, mask, (address + 4) % WORD_LIMIT, i + 1);
          assert forall a: Word :: Readable(m, d, a) == Readable(m, c, a);
        }
      } else {
        LoadingFaults(m, c, mask, address, i + 1);
      }
    }
  }

  /** A store goes through exactly when its lowest address is aligned and all its words lie in RAM. */
  lemma {:induction false} StoreFaultsIff(m: Layout, c: Core, base: nat, mask: nat, wb: bool)
    requires Valid(c) && !c.faulted && base < 16 && IsList(mask) && !Listed(mask, PC)
    ensures var low := (c.regs[base] - 4 * Bits(mask)) % WORD_LIMIT;
      !StoredBelow(m, c, base, mask, wb).faulted <==>
        low % 4 == 0 && forall j: nat | j < Bits(mask) :: Inside(m.ram, |c.ram|, WordAt(low, j), 4)
  {
    hide ShiftedDown, Listed, IsList, Bits, Listing, StoredFrom, WordAt, Inside;
    BitsOf(mask);
    StoringFaults(m, c, mask, Lowered(c.regs[base], mask), 0);
  }

  /** A load goes through exactly when its address is aligned, all its words can be read, and the word for PC,
      which lies behind the others, is odd. */
  lemma {:induction false} LoadFaultsIff(m: Layout, c: Core, base: nat, mask: nat, wb: bool)
    requires Valid(c) && !c.faulted && base < 16 && IsList(mask)
    ensures var low := c.regs[base];
      (!LoadedAbove(m, c, base, mask, wb).faulted <==>
        && low % 4 == 0 && (forall j: nat | j < Listing(mask, 0) :: Readable(m, c, WordAt(low, j)))
        && (Listed(mask, PC) ==>
             var last := WordAt(low, Listing(mask, 0));
             Readable(m, c, last) && ReadWord(m, c, last).value % 2 == 1))
    ensures base == SP ==> Popped(m, c, mask).faulted == LoadedAbove(m, c, SP, mask, wb).faulted
  {
    hide ShiftedDown, Listed, IsList, Bits, Listing, LoadedFrom, Little, Inside;
    LoadingFaults(m, c, mask, c.regs[base], 0);
    LoadedEnds(m, c, mask, c.regs[base], 0);
  }

  // ----- The emulator's loops -----

  method BitCount(value: Word) returns (count: nat)
    ensures count == Bits(value)
  {
    var v: nat := value;
    count := 0;
    while v != 0
      invariant count + Bits(v) == Bits(value)
    {
      count := count + v % 2;
      v := v / 2;
    }
  }

  class Cpu {
    const layout: Layout
    const registers: array<Word>
    const ram: array<Byte>
    const flash: array<Byte>
    var faulted: bool

    constructor (layout: Layout, registers: array<Word>, ram: array<Byte>, flash: array<Byte>)
      requires registers.Length == 16 && ram != flash
      ensures this.registers == registers && this.ram == ram && this.flash == flash && this.layout == layout && !faulted
    {
      this.layout, this.registers, this.ram, this.flash, faulted := layout, registers, ram, flash, false;
    }

    ghost predicate WellFormed() {
      registers.Length == 16 && ram != flash
    }

    ghost function View(): (c: Core)
      reads this, registers, ram, flash
      requires WellFormed()
      ensures Valid(c)
    {
      Core(registers[..], ram[..], flash[..], faulted)
    }

    method ReadMemory(address: Word) returns (value: Word)
      requires WellFormed()
      modifies this`faulted
      ensures var r := ReadWord(layout, old(View()), address); value == r.value && View() == r.core
    {
      if faulted {
        return 0;
      }
      if Inside(layout.ram, ram.Length, address, 4) {
        value := Little(ram[..], address - layout.ram);
      } else if Inside(layout.flash, flash.Length, address, 4) {
        value := Little(flash[..], address - layout.flash);
      } else {
        faulted := true;
        value := 0;
      }
    }

    method WriteMemory(address: Word, w: Word)
      requires WellFormed()
      modifies this`faulted, ram
      ensures View() == WriteWord(layout, old(View()), address, w)
    {
      if faulted {
        return;
      }
      if Inside(layout.ram, ram.Length, address, 4) {
        var at := address - layout.ram;
        ram[at] := w % 0x100;
        ram[at + 1] := w / 0x100 % 0x100;
        ram[at + 2] := w / 0x1_0000 % 0x100;
        ram[at + 3] := w / 0x100_0000;
        assert ram[..] == Put(old(ram[..]), at, w);
      } else {
        faulted := true;
      }
    }

    method WriteReg(r: nat, w: Word)
      requires WellFormed() && r < 16
      modifies registers
      ensures View() == WriteRegister(old(View()), r, w)
    {
      if !faulted {
        registers[r] := if r == SP then Aligned(w) else w;
      }
    }

    /** The loop of PUSH, STM and STMDB. */
    method StoreList(mask: nat, start: Word)
      requires WellFormed()
      modifies this`faulted, ram
      ensures View() == StoredFrom(layout, old(View()), mask, start, 0)
    {
      hide WriteWord, Listed;
      ghost var was := View();
      var i := 0;
      var address: Word := start;
      while i < 15
        invariant i <= 15
        invariant StoredFrom(layout, was, mask, start, 0) == StoredFrom(layout, View(), mask, address, i)
      {
        if Listed(mask, i) {
          WriteMemory(address, registers[i]);
          address := (address + 4) % WORD_LIMIT;
        }
        i := i + 1;
      }
    }

    /** The loop of POP, LDM and LDMDB, and the branch if PC is listed. */
    method LoadList(mask: nat, start: Word) returns (address: Word)
      requires WellFormed()
      modifies this`faulted, registers
      ensures var r := LoadedAll(layout, old(View()), mask, start); address == r.value && View() == r.core
    {
      hide ReadWord, Listed, WriteRegister, WriteBranch;
      ghost var was := View();
      var i := 0;
      address := start;
      while i < 15
        invariant i <= 15
        invariant LoadedFrom(layout, was, mask, start, 0) == LoadedFrom(layout, View(), mask, address, i)
      {
        if Listed(mask, i) {
          var value := ReadMemory(address);
          WriteReg(i, value);
          address := (address + 4) % WORD_LIMIT;
        }
        i := i + 1;
      }
      if Listed(mask, PC) {
        var target := ReadMemory(address);
        Branch(target);
      }
    }

    method Branch(target: Word)
      requires WellFormed()
      modifies this`faulted, registers
      ensures View() == WriteBranch(old(View()), target)
    {
      if target % 2 == 0 {
        faulted := true;
      } else {
        WriteReg(PC, target - 1);
      }
    }

    method StoreBelow(base: nat, mask: Word, wb: bool)
      requires WellFormed() && base < 16
      modifies this`faulted, registers, ram
      ensures View() == StoredBelow(layout, old(View()), base, mask, wb)
    {
      hide StoredFrom, WriteRegister;
      var count := BitCount(mask);
      var start: Word := (registers[base] - 4 * count) % WORD_LIMIT;
      if start % 4 != 0 {
        faulted := true;
        return;
      }
      StoreList(mask, start);
      if wb {
        WriteReg(base, start);
      }
    }

    method Push(mask: Word)
      requires WellFormed()
      modifies this`faulted, registers, ram
      ensures View() == StoredBelow(layout, old(View()), SP, mask, true)
    {
      StoreBelow(SP, mask, true);
    }

    method Pop(mask: Word)
      requires WellFormed()
      modifies this`faulted, registers
      ensures View() == Popped(layout, old(View()), mask)
    {
      hide LoadedAll, WriteRegister;
      var start := registers[SP];
      if start % 4 != 0 {
        faulted := true;
        return;
      }
      var count := BitCount(mask);
      var address := LoadList(mask, start);
      WriteReg(SP, (start + 4 * count) % WORD_LIMIT);
    }

    method Load(base: nat, mask: Word, wb: bool)
      requires WellFormed() && base < 16
      modifies this`faulted, registers
      ensures View() == LoadedAbove(layout, old(View()), base, mask, wb)
    {
      hide LoadedAll, WriteRegister;
      if registers[base] % 4 != 0 {
        faulted := true;
        return;
      }
      var address := LoadList(mask, registers[base]);
      if wb {
        WriteReg(base, address);
      }
    }
  }
}
