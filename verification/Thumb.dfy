/** A Thumb-like instruction set: the instructions the hardening scripts tell apart, over registers,
    flags and byte memory.  A code address is a value of its own, the index of a line of the program,
    so that a program and its rewritten form can be compared although their addresses differ. */
module Thumb {
  import opened Arithmetic

  datatype Option<T> = None | Some(value: T)

  /** r0 to r14; the program counter is kept apart. */
  type Reg = r: int | 0 <= r < 15

  const SP: Reg := 13
  const LR: Reg := 14
  const PC := 15

  datatype Value = Num(n: Word) | Code(at: nat, thumb: bool)

  /** One byte of memory: an octet, or the k-th part of a stored code address. */
  datatype Cell = Octet(b: Byte) | Part(at: nat, thumb: bool, k: nat)

  type Registers = r: seq<Value> | |r| == 15 witness seq(15, _ => Num(0))

  type Memory = map<int, Cell>

  datatype State = State(pc: nat, regs: Registers, flags: Flags, mem: Memory)

  type Condition = c: nat | c < 14

  function Inverse(c: Condition): Condition {
    if c % 2 == 0 then c + 1 else c - 1
  }

  lemma {:induction false} InverseHolds(c: Condition, f: Flags)
    ensures Evaluate(Inverse(c), f) == !Evaluate(c, f)
    ensures Inverse(Inverse(c)) == c
  {
    assert Inverse(c) / 2 == c / 2;
  }

  datatype ShiftKind = ShiftLeft | ShiftRight | ShiftArithmetic | Rotate

  datatype Operand = Imm(n: Word) | Plain(r: Reg) | Shifted(r: Reg, kind: ShiftKind, amount: nat)

  datatype AluOp = Add | Adc | Sub | Sbc | Rsb | Mul | And | Orr | Eor | Bic | Lsl | Lsr | Asr | Ror

  datatype Extension = Whole | ByteUnsigned | HalfUnsigned | ByteSigned | HalfSigned | Negated

  datatype Size = OneByte | TwoBytes | FourBytes

  datatype Index = Offset(y: Operand) | Pre(n: Word) | Post(n: Word)

  datatype Constant = Number(n: Word) | Address(l: nat, thumb: bool)

  /** `Short` is the two-operand spelling, in which the destination is also the first source. */
  datatype Instruction =
    | Data(op: AluOp, s: bool, rd: Reg, rn: Reg, y: Operand)
    | Short(op: AluOp, s: bool, rd: Reg, y: Operand)
    | Move(ext: Extension, s: bool, rd: Reg, y: Operand)
    | Insert(rd: Reg, rn: Reg, lsb: nat, width: nat)
    | Extract(signed: bool, rd: Reg, rn: Reg, lsb: nat, width: nat)
    | Compare(rn: Reg, y: Operand)
    | Test(rn: Reg, y: Operand)
    | Load(size: Size, rt: Reg, base: Reg, index: Index)
    | Store(size: Size, rt: Reg, base: Reg, index: Index)
    | Literal(rt: Reg, c: Constant)
    | LoadMany(db: bool, base: Reg, wb: bool, list: seq<Reg>, pc: bool)
    | StoreMany(db: bool, base: Reg, wb: bool, list: seq<Reg>)
    | Push(list: seq<Reg>)
    | Pop(list: seq<Reg>, pc: bool)
    | Branch(l: nat)
    | Call(l: nat)
    | BranchReg(r: Reg)
    | CallReg(r: Reg)
    | BranchZero(nonzero: bool, r: Reg, l: nat)
    | AddressOf(rd: Reg, l: nat)
    | ReadFlags(rd: Reg)
    | WriteFlags(r: Reg)

  /** `Mark` stands for blank lines, directives and comments. */
  datatype Line =
    | Label(l: nat)
    | Mark
    | IgnoreStart
    | IgnoreEnd
    | It(thens: nat, elses: nat, test: Condition)
    | Op(cond: Option<Condition>, ins: Instruction)

  // ----- Values -----

  function Pow2(n: nat): (r: nat)
    ensures r > 0
  {
    if n == 0 then 1 else 2 * Pow2(n - 1)
  }

  datatype BitOp = BitAnd | BitOr | BitXor

  function BitOf(op: BitOp, a: nat, b: nat): nat {
    match op
    case BitAnd => if a % 2 == 1 && b % 2 == 1 then 1 else 0
    case BitOr => if a % 2 == 1 || b % 2 == 1 then 1 else 0
    case BitXor => if a % 2 != b % 2 then 1 else 0
  }

  /** The operation on each of the n lowest bits. */
  function Bitwise(op: BitOp, x: nat, y: nat, n: nat): (r: nat)
    ensures r < Pow2(n)
  {
    if n == 0 then 0 else BitOf(op, x, y) + 2 * Bitwise(op, x / 2, y / 2, n - 1)
  }

  lemma {:induction false} Pow2Sum(a: nat, b: nat)
    ensures Pow2(a + b) == Pow2(a) * Pow2(b)
  {
    if b > 0 {
      Pow2Sum(a, b - 1);
    }
  }

  lemma {:induction false} Pow2Word()
    ensures Pow2(32) == WORD_LIMIT
  {
    assert Pow2(8) == 256 by {
      assert Pow2(4) == 16;
    }
    Pow2Sum(8, 8);
    Pow2Sum(16, 16);
  }

  function BitwiseWord(op: BitOp, x: Word, y: Word): Word {
    Pow2Word();
    Bitwise(op, x, y, 32)
  }

  datatype Shift = Shift(n: Word, carry: bool)

  /** Shifting by zero keeps the carry; shifting by more than 32 leaves nothing. */
  function ShiftWord(kind: ShiftKind, x: Word, amount: nat, carry: bool): Shift {
    if amount == 0 then Shift(x, carry)
    else match kind
      case ShiftLeft =>
        if amount > 32 then Shift(0, false)
        else Shift(x * Pow2(amount) % WORD_LIMIT, x * Pow2(amount) / WORD_LIMIT % 2 == 1)
      case ShiftRight =>
        if amount > 32 then Shift(0, false)
        else Shift(x / Pow2(amount) % WORD_LIMIT, x / Pow2(amount - 1) % 2 == 1)
      case ShiftArithmetic =>
        var k := if amount > 32 then 32 else amount;
        Shift(Signed(x) / Pow2(k) % WORD_LIMIT, Signed(x) / Pow2(k - 1) % 2 == 1)
      case Rotate =>
        var m := amount % 32;
        var r := (x / Pow2(m) + x * Pow2(32 - m)) % WORD_LIMIT;
        Shift(r, r >= SIGN_BIT)
  }

  /** The second operand as a number, with the carry out of its shift; none for a code address. */
  function Second(regs: Registers, y: Operand, carry: bool): Option<Shift> {
    match y
    case Imm(n) => Some(Shift(n, carry))
    case Plain(r) => if regs[r].Num? then Some(Shift(regs[r].n, carry)) else None
    case Shifted(r, kind, amount) =>
      if regs[r].Num? then Some(ShiftWord(kind, regs[r].n, amount, carry)) else None
  }

  datatype Result = Result(n: Word, flags: Flags)

  function Summed(s: Sum): Result {
    Result(s.result, FlagsOf(s))
  }

  function Logical(n: Word, carry: bool, f: Flags): Result {
    Result(n, Flags(n >= SIGN_BIT, n == 0, carry, f.v))
  }

  function Compute(op: AluOp, x: Word, y: Shift, f: Flags): Result {
    match op
    case Add => Summed(AddWithCarry(x, y.n, false))
    case Adc => Summed(AddWithCarry(x, y.n, f.c))
    case Sub => Summed(AddWithCarry(x, Complement(y.n), true))
    case Sbc => Summed(AddWithCarry(x, Complement(y.n), f.c))
    case Rsb => Summed(AddWithCarry(y.n, Complement(x), true))
    case Mul => Logical(x * y.n % WORD_LIMIT, f.c, f)
    case And => Logical(BitwiseWord(BitAnd, x, y.n), y.carry, f)
    case Orr => Logical(BitwiseWord(BitOr, x, y.n), y.carry, f)
    case Eor => Logical(BitwiseWord(BitXor, x, y.n), y.carry, f)
    case Bic => Logical(BitwiseWord(BitAnd, x, Complement(y.n)), y.carry, f)
    case Lsl => ShiftedBy(ShiftLeft, x, y.n, f)
    case Lsr => ShiftedBy(ShiftRight, x, y.n, f)
    case Asr => ShiftedBy(ShiftArithmetic, x, y.n, f)
    case Ror => ShiftedBy(Rotate, x, y.n, f)
  }

  /** A shift by a register uses the low byte of the register. */
  function ShiftedBy(kind: ShiftKind, x: Word, amount: Word, f: Flags): Result {
    var s := ShiftWord(kind, x, amount % 256, f.c);
    Logical(s.n, s.carry, f)
  }

  function Extend(ext: Extension, x: Word): Word {
    match ext
    case Whole => x
    case ByteUnsigned => x % 0x100
    case HalfUnsigned => x % 0x1_0000
    case ByteSigned => if x % 0x100 < 0x80 then x % 0x100 else x % 0x100 + WORD_LIMIT - 0x100
    case HalfSigned => if x % 0x1_0000 < 0x8000 then x % 0x1_0000 else x % 0x1_0000 + WORD_LIMIT - 0x1_0000
    case Negated => Complement(x)
  }

  /** n bits: those of x, but from `lsb` on `width` of them from y. */
  function InsertedBits(x: nat, y: nat, lsb: nat, width: nat, n: nat): (r: nat)
    ensures r < Pow2(n)
  {
    if n == 0 then 0
    else if lsb > 0 then x % 2 + 2 * InsertedBits(x / 2, y, lsb - 1, width, n - 1)
    else if width > 0 then y % 2 + 2 * InsertedBits(x / 2, y / 2, 0, width - 1, n - 1)
    else x % 2 + 2 * InsertedBits(x / 2, y, 0, 0, n - 1)
  }

  function Inserted(x: Word, y: Word, lsb: nat, width: nat): Word {
    Pow2Word();
    InsertedBits(x, y, lsb, width, 32)
  }

  function Extracted(signed: bool, x: Word, lsb: nat, width: nat): Word {
    var field := x / Pow2(lsb) % Pow2(width);
    if signed && width > 0 && field >= Pow2(width - 1) then (field - Pow2(width)) % WORD_LIMIT else field % WORD_LIMIT
  }

  function FlagWord(f: Flags): Word {
    0x8000_0000 * Bit(f.n) + 0x4000_0000 * Bit(f.z) + 0x2000_0000 * Bit(f.c) + 0x1000_0000 * Bit(f.v)
  }

  function WordFlags(x: Word): Flags {
    Flags(x / 0x8000_0000 % 2 == 1, x / 0x4000_0000 % 2 == 1, x / 0x2000_0000 % 2 == 1, x / 0x1000_0000 % 2 == 1)
  }

  // ----- Memory -----

  function CellOf(v: Value, k: nat): Cell {
    match v
    case Num(n) => Octet(n / Pow2(8 * k) % 256)
    case Code(at, thumb) => Part(at, thumb, k)
  }

  function Cells(v: Value, size: nat): (r: seq<Cell>)
    ensures |r| == size
  {
    seq(size, k requires 0 <= k < size => CellOf(v, k))
  }

  function Octets(cells: seq<Cell>): Option<nat> {
    if cells == [] then Some(0)
    else match Octets(cells[1..])
      case None => None
      case Some(rest) => if cells[0].Octet? then Some(cells[0].b + 256 * rest) else None
  }

  /** The value held by some cells: a number, or a code address if they are its parts in order. */
  function Joined(cells: seq<Cell>): Option<Value> {
    match Octets(cells)
    case Some(n) => Some(Num(n % WORD_LIMIT))
    case None =>
      if |cells| == 4 && cells[0].Part? && cells == Cells(Code(cells[0].at, cells[0].thumb), 4)
      then Some(Code(cells[0].at, cells[0].thumb))
      else None
  }

  predicate Mapped(mem: Memory, address: int, size: nat) {
    forall a | address <= a < address + size :: a in mem
  }

  function Fetched(mem: Memory, address: int, size: nat): (r: seq<Cell>)
    requires Mapped(mem, address, size)
    ensures |r| == size
  {
    seq(size, k requires 0 <= k < size => mem[address + k])
  }

  function LoadFrom(mem: Memory, address: int, size: nat): Option<Value> {
    if Mapped(mem, address, size) then Joined(Fetched(mem, address, size)) else None
  }

  function Patch(address: int, cells: seq<Cell>): (r: Memory)
    ensures forall a :: a in r <==> address <= a < address + |cells|
  {
    map a | address <= a < address + |cells| :: CellAt(cells, address, a)
  }

  function CellAt(cells: seq<Cell>, address: int, a: int): Cell
    requires address <= a < address + |cells|
  {
    cells[a - address]
  }

  function StoreTo(mem: Memory, address: int, cells: seq<Cell>): Option<Memory> {
    if Mapped(mem, address, |cells|) then Some(mem + Patch(address, cells)) else None
  }

  function SizeOf(size: Size): nat {
    match size
    case OneByte => 1
    case TwoBytes => 2
    case FourBytes => 4
  }

  // ----- Steps -----

  function Next(s: State): State {
    s.(pc := s.pc + 1)
  }

  function Set(s: State, rd: Reg, v: Value): State {
    s.(regs := s.regs[rd := v])
  }

  /** The first line that carries a label. */
  function Find(prog: seq<Line>, l: nat): (r: Option<nat>)
    ensures r.Some? ==> r.value < |prog| && prog[r.value] == Label(l) && Label(l) !in prog[..r.value]
    ensures r.None? ==> Label(l) !in prog
  {
    if prog == [] then None
    else if prog[|prog| - 1] == Label(l) then
      match Find(prog[..|prog| - 1], l)
      case Some(i) => assert prog[..|prog| - 1][..i] == prog[..i]; Some(i)
      case None => Some(|prog| - 1)
    else
      match Find(prog[..|prog| - 1], l)
      case Some(i) => assert prog[..|prog| - 1][..i] == prog[..i]; Some(i)
      case None => assert prog == prog[..|prog| - 1] + [prog[|prog| - 1]]; None
  }

  /** The address of a line: labels take no room, so it is that of the next line that is none. */
  function Settle(prog: seq<Line>, i: nat): (r: nat)
    decreases |prog| - i
  {
    if i < |prog| && prog[i].Label? then Settle(prog, i + 1) else i
  }

  function GoTo(prog: seq<Line>, l: nat, s: State): Option<State> {
    match Find(prog, l)
    case Some(i) => Some(s.(pc := i))
    case None => None
  }

  /** A branch to a value: it must be a Thumb code address inside the program or just behind it. */
  function GoToValue(prog: seq<Line>, v: Value, s: State): Option<State> {
    if v.Code? && v.thumb && v.at <= |prog| then Some(s.(pc := v.at)) else None
  }

  /** A code address keeps its place when its lowest bit is set; no other arithmetic on it is defined. */
  function DataValue(op: AluOp, s: bool, x: Value, y: Shift, f: Flags): Option<(Value, Flags)> {
    match x
    case Num(n) => var r := Compute(op, n, y, f); Some((Num(r.n), if s then r.flags else f))
    case Code(at, _) => if op == Orr && !s && y.n == 1 then Some((Code(at, true), f)) else None
  }

  function PerformData(op: AluOp, s: bool, rd: Reg, rn: Reg, y: Operand, st: State): Option<State> {
    match Second(st.regs, y, st.flags.c)
    case None => None
    case Some(n) =>
      match DataValue(op, s, st.regs[rn], n, st.flags)
      case None => None
      case Some(r) => Some(Next(Set(st, rd, r.0).(flags := r.1)))
  }

  function PerformMove(ext: Extension, s: bool, rd: Reg, y: Operand, st: State): Option<State> {
    if y.Plain? && !s && ext == Whole then Some(Next(Set(st, rd, st.regs[y.r])))
    else match Second(st.regs, y, st.flags.c)
      case None => None
      case Some(x) =>
        var r := Logical(Extend(ext, x.n), x.carry, st.flags);
        Some(Next(Set(st, rd, Num(r.n)).(flags := if s then r.flags else st.flags)))
  }

  /** The address accessed and the value the base register is left with. */
  function Addressed(base: Reg, index: Index, st: State): Option<(int, Word)> {
    if !st.regs[base].Num? then None
    else
      var b := st.regs[base].n;
      match index
      case Offset(y) =>
        (match Second(st.regs, y, st.flags.c)
         case None => None
         case Some(o) => Some(((b + o.n) % WORD_LIMIT, b)))
      case Pre(n) => Some(((b + n) % WORD_LIMIT, (b + n) % WORD_LIMIT))
      case Post(n) => Some((b, (b + n) % WORD_LIMIT))
  }

  function SetBase(st: State, base: Reg, index: Index, b: Word): State {
    if index.Offset? then st else Set(st, base, Num(b))
  }

  /** With writeback the transferred register must not be the base: the result would be unpredictable. */
  function PerformLoad(size: Size, rt: Reg, base: Reg, index: Index, st: State): Option<State> {
    if !index.Offset? && rt == base then None
    else match Addressed(base, index, st)
      case None => None
      case Some(a) =>
        match LoadFrom(st.mem, a.0, SizeOf(size))
        case None => None
        case Some(v) => Some(Next(Set(SetBase(st, base, index, a.1), rt, v)))
  }

  function PerformStore(size: Size, rt: Reg, base: Reg, index: Index, st: State): Option<State> {
    if !index.Offset? && rt == base then None
    else if size != FourBytes && st.regs[rt].Code? then None
    else match Addressed(base, index, st)
      case None => None
      case Some(a) =>
        match StoreTo(st.mem, a.0, Cells(st.regs[rt], SizeOf(size)))
        case None => None
        case Some(mem) => Some(Next(SetBase(st, base, index, a.1).(mem := mem)))
  }

  function CellsOfMany(regs: Registers, list: seq<Reg>): (r: seq<Cell>)
    ensures |r| == 4 * |list|
  {
    if list == [] then [] else Cells(regs[list[0]], 4) + CellsOfMany(regs, list[1..])
  }

  /** Registers after loading a list from consecutive words. */
  function LoadedMany(regs: Registers, mem: Memory, address: int, list: seq<Reg>): Option<Registers>
    decreases |list|
  {
    if list == [] then Some(regs)
    else match LoadFrom(mem, address, 4)
      case None => None
      case Some(v) => LoadedMany(regs[list[0] := v], mem, address + 4, list[1..])
  }

  /** The lowest address of a block transfer, and the base afterwards. */
  function BlockStart(db: bool, b: Word, bytes: nat): Word {
    if db then (b - bytes) % WORD_LIMIT else b
  }

  function BlockEnd(db: bool, b: Word, bytes: nat): Word {
    if db then (b - bytes) % WORD_LIMIT else (b + bytes) % WORD_LIMIT
  }

  function BytesMoved(list: seq<Reg>, pc: bool): nat {
    4 * |list| + 4 * Bit(pc)
  }

  function PerformLoadMany(prog: seq<Line>, db: bool, base: Reg, wb: bool, list: seq<Reg>, pc: bool,
                           st: State): Option<State> {
    if wb && base in list then None
    else if !st.regs[base].Num? then None
    else
      var b := st.regs[base].n;
      var a := BlockStart(db, b, BytesMoved(list, pc));
      if a % 4 != 0 then None
      else match LoadedMany(st.regs, st.mem, a, list)
        case None => None
        case Some(regs) =>
          var after := if wb then regs[base := Num(BlockEnd(db, b, BytesMoved(list, pc)))] else regs;
          if !pc then Some(Next(st.(regs := after)))
          else match LoadFrom(st.mem, a + 4 * |list|, 4)
            case None => None
            case Some(v) => GoToValue(prog, v, st.(regs := after))
  }

  function PerformStoreMany(db: bool, base: Reg, wb: bool, list: seq<Reg>, st: State): Option<State> {
    if wb && base in list then None
    else if !st.regs[base].Num? then None
    else
      var b := st.regs[base].n;
      var a := BlockStart(db, b, BytesMoved(list, false));
      if a % 4 != 0 then None
      else match StoreTo(st.mem, a, CellsOfMany(st.regs, list))
        case None => None
        case Some(mem) =>
          var stored := st.(mem := mem);
          Some(Next(if wb then Set(stored, base, Num(BlockEnd(db, b, BytesMoved(list, false)))) else stored))
  }

  function PerformLiteral(prog: seq<Line>, rt: Reg, c: Constant, st: State): Option<State> {
    match c
    case Number(n) => Some(Next(Set(st, rt, Num(n))))
    case Address(l, thumb) =>
      match Find(prog, l)
      case None => None
      case Some(i) => Some(Next(Set(st, rt, Code(Settle(prog, i), thumb))))
  }

  /** One executed instruction; none where the architecture leaves the result open or faults. */
  function Perform(prog: seq<Line>, ins: Instruction, st: State): Option<State> {
    match ins
    case Data(op, s, rd, rn, y) => PerformData(op, s, rd, rn, y, st)
    case Short(op, s, rd, y) => PerformData(op, s, rd, rd, y, st)
    case Move(ext, s, rd, y) => PerformMove(ext, s, rd, y, st)
    case Insert(rd, rn, lsb, width) =>
      if st.regs[rd].Num? && st.regs[rn].Num?
      then Some(Next(Set(st, rd, Num(Inserted(st.regs[rd].n, st.regs[rn].n, lsb, width)))))
      else None
    case Extract(signed, rd, rn, lsb, width) =>
      if st.regs[rn].Num?
      then Some(Next(Set(st, rd, Num(Extracted(signed, st.regs[rn].n, lsb, width)))))
      else None
    case Compare(rn, y) =>
      (match Second(st.regs, y, st.flags.c)
       case None => None
       case Some(n) => if st.regs[rn].Num? then Some(Next(st.(flags := CompareFlags(st.regs[rn].n, n.n)))) else None)
    case Test(rn, y) =>
      (match Second(st.regs, y, st.flags.c)
       case None => None
       case Some(n) =>
         if st.regs[rn].Num?
         then Some(Next(st.(flags := Logical(BitwiseWord(BitAnd, st.regs[rn].n, n.n), n.carry, st.flags).flags)))
         else None)
    case Load(size, rt, base, index) => PerformLoad(size, rt, base, index, st)
    case Store(size, rt, base, index) => PerformStore(size, rt, base, index, st)
    case Literal(rt, c) => PerformLiteral(prog, rt, c, st)
    case LoadMany(db, base, wb, list, pc) => PerformLoadMany(prog, db, base, wb, list, pc, st)
    case StoreMany(db, base, wb, list) => PerformStoreMany(db, base, wb, list, st)
    case Push(list) => PerformStoreMany(true, SP, true, list, st)
    case Pop(list, pc) => PerformLoadMany(prog, false, SP, true, list, pc, st)
    case Branch(l) => GoTo(prog, l, st)
    case Call(l) => GoTo(prog, l, Set(st, LR, Code(Settle(prog, st.pc + 1), true)))
    case BranchReg(r) => GoToValue(prog, st.regs[r], st)
    case CallReg(r) => GoToValue(prog, st.regs[r], Set(st, LR, Code(Settle(prog, st.pc + 1), true)))
    case BranchZero(nonzero, r, l) =>
      if !st.regs[r].Num? then None
      else if (st.regs[r].n == 0) != nonzero then GoTo(prog, l, st) else Some(Next(st))
    case AddressOf(rd, l) =>
      (match Find(prog, l)
       case None => None
       case Some(i) => Some(Next(Set(st, rd, Code(Settle(prog, i), false)))))
    case ReadFlags(rd) => Some(Next(Set(st, rd, Num(FlagWord(st.flags)))))
    case WriteFlags(r) => if st.regs[r].Num? then Some(Next(st.(flags := WordFlags(st.regs[r].n)))) else None
  }

  /** One line.  Lines that are not instructions, and instructions whose condition fails, only advance. */
  function Step(prog: seq<Line>, st: State): Option<State> {
    if st.pc >= |prog| then None
    else match prog[st.pc]
      case Op(cond, ins) =>
        if cond.Some? && !Evaluate(cond.value, st.flags) then Some(Next(st)) else Perform(prog, ins, st)
      case _ => Some(Next(st))
  }

  /** The run has ended at the end of the program. */
  predicate Halted(prog: seq<Line>, st: State) {
    st.pc == |prog|
  }

  /** A run idles once it has ended. */
  function Advance(prog: seq<Line>, st: State): Option<State> {
    if Halted(prog, st) then Some(st) else Step(prog, st)
  }

  function Run(prog: seq<Line>, st: State, n: nat): Option<State>
    decreases n
  {
    if n == 0 then Some(st)
    else match Advance(prog, st)
      case None => None
      case Some(t) => Run(prog, t, n - 1)
  }

  /** The registers an instruction names, in the order they are written. */
  function OperandTokens(y: Operand): seq<int> {
    match y
    case Imm(_) => []
    case Plain(r) => [r]
    case Shifted(r, _, _) => [r]
  }

  function IndexTokens(index: Index): seq<int> {
    match index
    case Offset(y) => OperandTokens(y)
    case _ => []
  }

  function ListTokens(list: seq<Reg>, pc: bool): (r: seq<int>)
    ensures |r| == |list| + Bit(pc)
  {
    seq(|list|, k requires 0 <= k < |list| => list[k]) + (if pc then [PC] else [])
  }

  function Tokens(ins: Instruction): seq<int> {
    match ins
    case Data(_, _, rd, rn, y) => [rd, rn] + OperandTokens(y)
    case Short(_, _, rd, y) => [rd] + OperandTokens(y)
    case Move(_, _, rd, y) => [rd] + OperandTokens(y)
    case Insert(rd, rn, _, _) => [rd, rn]
    case Extract(_, rd, rn, _, _) => [rd, rn]
    case Compare(rn, y) => [rn] + OperandTokens(y)
    case Test(rn, y) => [rn] + OperandTokens(y)
    case Load(_, rt, base, index) => [rt, base] + IndexTokens(index)
    case Store(_, rt, base, index) => [rt, base] + IndexTokens(index)
    case Literal(rt, _) => [rt]
    case LoadMany(_, base, _, list, pc) => [base] + ListTokens(list, pc)
    case StoreMany(_, base, _, list) => [base] + ListTokens(list, false)
    case Push(list) => ListTokens(list, false)
    case Pop(list, pc) => ListTokens(list, pc)
    case Branch(_) => []
    case Call(_) => []
    case BranchReg(r) => [r]
    case CallReg(r) => [r]
    case BranchZero(_, r, _) => [r]
    case AddressOf(rd, _) => [rd]
    case ReadFlags(rd) => [rd]
    case WriteFlags(r) => [r]
  }
}
