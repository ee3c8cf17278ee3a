/** Instructions that may be executed twice: a second execution changes nothing.  For most this holds because the
    operands are left alone; a shift by a register, an operation that absorbs its own result, a load that does not
    replace its base, and transfers of several registers each have their own reason.  Instructions that read the
    carry are repeatable only as long as they do not write it. */
module Replayable {
  import opened Arithmetic
  import opened Thumb

  predicate ReadsCarry(op: AluOp) {
    op == Adc || op == Sbc
  }

  /** x op y op y == x op y */
  predicate Absorbs(op: AluOp) {
    op == And || op == Orr || op == Bic
  }

  /** What the operands of an instruction must look like for a second execution to be harmless. */
  predicate Replays(ins: Instruction) {
    match ins
    case Data(op, s, rd, rn, y) => rd != rn && rd !in OperandTokens(y) && !(s && ReadsCarry(op))
    case Short(op, s, rd, y) => Absorbs(op) && rd !in OperandTokens(y)
    case Move(_, _, rd, y) => rd !in OperandTokens(y)
    case Insert(rd, rn, _, _) => rd != rn
    case Extract(_, rd, rn, _, _) => rd != rn
    case Compare(_, _) => true
    case Test(_, _) => true
    case Load(_, rt, base, index) => index.Offset? && rt != base && rt !in IndexTokens(index)
    case Store(_, _, _, index) => index.Offset?
    case Literal(_, _) => true
    case LoadMany(_, base, wb, list, _) => !wb && base !in list
    case StoreMany(_, _, wb, _) => !wb
    case Push(_) => false
    case Pop(_, _) => false
    case Branch(_) => true
    case Call(_) => false
    case BranchReg(_) => true
    case CallReg(_) => false
    case BranchZero(_, _, _) => true
    case AddressOf(_, _) => true
    case ReadFlags(_) => true
    case WriteFlags(_) => true
  }

  /** An instruction that can only go on to the next line. */
  predicate Falls(ins: Instruction) {
    !(ins.Branch? || ins.Call? || ins.BranchReg? || ins.CallReg? || ins.BranchZero? ||
      (ins.LoadMany? && ins.pc) || (ins.Pop? && ins.pc))
  }

  lemma {:induction false} ShiftCarryStable(kind: ShiftKind, x: Word, amount: nat, c: bool)
    ensures var s := ShiftWord(kind, x, amount, c); ShiftWord(kind, x, amount, s.carry) == s
  {
    hide Pow2, Signed;
  }

  /** Reading the operand again, after its own carry has been stored, gives the same. */
  lemma {:induction false} SecondStable(regs: Registers, y: Operand, c: bool, n: Shift)
    requires Second(regs, y, c) == Some(n)
    ensures Second(regs, y, n.carry) == Some(n)
  {
    match y
    case Shifted(r, kind, amount) => ShiftCarryStable(kind, regs[r].n, amount, c);
    case _ =>
  }

  /** The number read does not depend on the carry. */
  lemma {:induction false} SecondNumber(regs: Registers, y: Operand, c: bool, d: bool)
    ensures Second(regs, y, c).Some? == Second(regs, y, d).Some?
    ensures Second(regs, y, c).Some? ==> Second(regs, y, c).value.n == Second(regs, y, d).value.n
  {
    hide Pow2, Signed;
  }

  lemma {:induction false} SecondUntouched(regs: Registers, y: Operand, c: bool, rd: Reg, v: Value)
    requires rd !in OperandTokens(y)
    ensures Second(regs[rd := v], y, c) == Second(regs, y, c)
  {
    hide ShiftWord;
  }

  /** Reading the operand again, after a register it does not name was written and a carry stored. */
  lemma {:induction false} SecondReread(regs: Registers, y: Operand, c: bool, rd: Reg, v: Value, d: bool)
    requires rd !in OperandTokens(y) && Second(regs, y, c).Some?
    ensures var n, n' := Second(regs, y, c).value, Second(regs[rd := v], y, d);
      n'.Some? && n'.value.n == n.n && (d == c || d == n.carry ==> n'.value == n)
  {
    hide Second, OperandTokens;
    SecondUntouched(regs, y, d, rd, v);
    SecondNumber(regs, y, c, d);
    SecondStable(regs, y, c, Second(regs, y, c).value);
  }

  lemma {:induction false} BitwiseAgain(op: BitOp, x: nat, y: nat, n: nat)
    requires op != BitXor
    ensures Bitwise(op, Bitwise(op, x, y, n), y, n) == Bitwise(op, x, y, n)
  {
    if n > 0 {
      BitwiseAgain(op, x / 2, y / 2, n - 1);
    }
  }

  lemma {:induction false} ComputeAgain(op: AluOp, x: Word, y: Shift, f: Flags)
    requires Absorbs(op)
    ensures var r := Compute(op, x, y, f); Compute(op, r.n, y, r.flags) == r && Compute(op, r.n, y, f) == r
  {
    hide Bitwise;
    match op
    case And => BitwiseAgain(BitAnd, x, y.n, 32);
    case Orr => BitwiseAgain(BitOr, x, y.n, 32);
    case Bic => BitwiseAgain(BitAnd, x, Complement(y.n), 32);
  }

  /** Operations that do not read the carry give the same after their own flags have been stored. */
  lemma {:induction false} ComputeStable(op: AluOp, x: Word, y: Shift, y': Shift, f: Flags)
    requires !ReadsCarry(op) && y'.n == y.n
    requires y'.carry == Compute(op, x, y, f).flags.c || y' == y
    ensures var r := Compute(op, x, y, f);
      (y'.carry == y.carry || !(op == And || op == Orr || op == Eor || op == Bic)) ==> Compute(op, x, y', r.flags) == r
  {
    hide Bitwise, AddWithCarry, ShiftWord;
    ShiftCarryStable(ShiftLeft, x, y.n % 256, f.c);
    ShiftCarryStable(ShiftRight, x, y.n % 256, f.c);
    ShiftCarryStable(ShiftArithmetic, x, y.n % 256, f.c);
    ShiftCarryStable(Rotate, x, y.n % 256, f.c);
  }

  lemma {:induction false} DataAgain(op: AluOp, s: bool, rd: Reg, rn: Reg, y: Operand, st: State, t: State)
    requires rd !in OperandTokens(y)
    requires if rd == rn then Absorbs(op) else !(s && ReadsCarry(op))
    requires PerformData(op, s, rd, rn, y, st) == Some(t)
    ensures t.pc == st.pc + 1 && PerformData(op, s, rd, rn, y, t) == Some(Next(t))
  {
    hide Second, OperandTokens, DataValue, Absorbs, ReadsCarry;
    var n := Second(st.regs, y, st.flags.c).value;
    var x := st.regs[rn];
    var r := DataValue(op, s, x, n, st.flags).value;
    SecondReread(st.regs, y, st.flags.c, rd, r.0, r.1.c);
    var n' := Second(st.regs[rd := r.0], y, r.1.c).value;
    DataValueAgain(op, s, x, n, n', st.flags, rd == rn);
    SameAgain(op, s, rd, rn, y, st, n', r);
  }

  lemma {:induction false} SameAgain(op: AluOp, s: bool, rd: Reg, rn: Reg, y: Operand, st: State, n: Shift,
                                     r: (Value, Flags))
    requires var regs := st.regs[rd := r.0];
      Second(regs, y, r.1.c) == Some(n) && DataValue(op, s, regs[rn], n, r.1) == Some(r)
    ensures var t := Next(Set(st, rd, r.0).(flags := r.1)); PerformData(op, s, rd, rn, y, t) == Some(Next(t))
  {
    hide Second, DataValue;
    var regs := st.regs[rd := r.0];
    assert regs[rd := r.0] == regs;
  }

  /** The value and flags of a second execution, reading the result (`again`) or the same source. */
  lemma {:induction false} DataValueAgain(op: AluOp, s: bool, x: Value, y: Shift, y': Shift, f: Flags, again: bool)
    requires if again then Absorbs(op) else !(s && ReadsCarry(op))
    requires DataValue(op, s, x, y, f).Some? && y'.n == y.n
    requires var r := DataValue(op, s, x, y, f).value; r.1.c == f.c || r.1.c == y.carry ==> y'.carry == y.carry
    ensures var r := DataValue(op, s, x, y, f).value;
      DataValue(op, s, if again then r.0 else x, y', r.1) == Some(r)
  {
    hide Bitwise, ShiftWord, AddWithCarry;
    var r := DataValue(op, s, x, y, f).value;
    if x.Num? {
      if again {
        ComputeAgain(op, x.n, y, f);
      } else if s {
        ComputeStable(op, x.n, y, y, f);
      }
    }
  }

  lemma {:induction false} MoveAgain(ext: Extension, s: bool, rd: Reg, y: Operand, st: State, t: State)
    requires rd !in OperandTokens(y)
    requires PerformMove(ext, s, rd, y, st) == Some(t)
    ensures t.pc == st.pc + 1 && PerformMove(ext, s, rd, y, t) == Some(Next(t))
  {
    hide Second, Extend;
    var v := t.regs[rd];
    if Second(st.regs, y, st.flags.c).Some? {
      SecondReread(st.regs, y, st.flags.c, rd, v, t.flags.c);
    }
    assert t.regs[rd := v] == t.regs;
  }

  /** One bit of an insertion, and the rest. */
  lemma {:induction false} InsertedNext(b: nat, rest: nat, y: nat, lsb: nat, width: nat, n: nat)
    requires b < 2
    ensures lsb > 0 ==>
      InsertedBits(b + 2 * rest, y, lsb, width, n + 1) == b + 2 * InsertedBits(rest, y, lsb - 1, width, n)
    ensures lsb == 0 && width > 0 ==>
      InsertedBits(b + 2 * rest, y, 0, width, n + 1) == y % 2 + 2 * InsertedBits(rest, y / 2, 0, width - 1, n)
    ensures InsertedBits(b + 2 * rest, y, 0, 0, n + 1) == b + 2 * InsertedBits(rest, y, 0, 0, n)
  {
    Halves(b, rest);
  }

  lemma {:induction false} InsertedAgain(x: nat, y: nat, lsb: nat, width: nat, n: nat)
    ensures InsertedBits(InsertedBits(x, y, lsb, width, n), y, lsb, width, n) == InsertedBits(x, y, lsb, width, n)
  {
    hide InsertedBits;
    if n == 0 {
      NothingInserted(x, y, lsb, width);
      NothingInserted(0, y, lsb, width);
    } else {
      assert x == x % 2 + 2 * (x / 2);
      InsertedNext(x % 2, x / 2, y, lsb, width, n - 1);
      if lsb > 0 {
        InsertedNext(x % 2, InsertedBits(x / 2, y, lsb - 1, width, n - 1), y, lsb, width, n - 1);
        InsertedAgain(x / 2, y, lsb - 1, width, n - 1);
      } else if width > 0 {
        InsertedNext(y % 2, InsertedBits(x / 2, y / 2, 0, width - 1, n - 1), y, 0, width, n - 1);
        InsertedAgain(x / 2, y / 2, 0, width - 1, n - 1);
      } else {
        InsertedNext(x % 2, InsertedBits(x / 2, y, 0, 0, n - 1), y, 0, 0, n - 1);
        InsertedAgain(x / 2, y, 0, 0, n - 1);
      }
    }
  }

  lemma {:induction false} NothingInserted(x: nat, y: nat, lsb: nat, width: nat)
    ensures InsertedBits(x, y, lsb, width, 0) == 0
  {
  }

  lemma {:induction false} Halves(b: nat, rest: nat)
    requires b < 2
    ensures (b + 2 * rest) % 2 == b && (b + 2 * rest) / 2 == rest
  {
  }

  lemma {:induction false} LoadAgain(size: Size, rt: Reg, base: Reg, index: Index, st: State, t: State)
    requires index.Offset? && rt != base && rt !in IndexTokens(index)
    requires PerformLoad(size, rt, base, index, st) == Some(t)
    ensures t.pc == st.pc + 1 && PerformLoad(size, rt, base, index, t) == Some(Next(t))
  {
    hide Second, LoadFrom;
    SecondUntouched(st.regs, index.y, st.flags.c, rt, t.regs[rt]);
    assert t.regs[rt := t.regs[rt]] == t.regs;
  }

  lemma {:induction false} PatchAgain(mem: Memory, address: int, cells: seq<Cell>)
    ensures (mem + Patch(address, cells)) + Patch(address, cells) == mem + Patch(address, cells)
  {
  }

  lemma {:induction false} StoreAgain(size: Size, rt: Reg, base: Reg, index: Index, st: State, t: State)
    requires index.Offset?
    requires PerformStore(size, rt, base, index, st) == Some(t)
    ensures t.pc == st.pc + 1 && PerformStore(size, rt, base, index, t) == Some(Next(t))
  {
    hide Second, CellOf;
    var a := Addressed(base, index, st).value.0;
    PatchAgain(st.mem, a, Cells(st.regs[rt], SizeOf(size)));
  }

  lemma {:induction false} StoreManyAgain(db: bool, base: Reg, list: seq<Reg>, st: State, t: State)
    requires PerformStoreMany(db, base, false, list, st) == Some(t)
    ensures t.pc == st.pc + 1 && PerformStoreMany(db, base, false, list, t) == Some(Next(t))
  {
    hide CellsOfMany;
    var a := BlockStart(db, st.regs[base].n, BytesMoved(list, false));
    PatchAgain(st.mem, a, CellsOfMany(st.regs, list));
  }

  /** Loading a list fixes its registers whatever they held, and leaves the others. */
  lemma {:induction false} LoadedManyAgree(a: Registers, b: Registers, mem: Memory, address: int, list: seq<Reg>)
    requires forall r: Reg :: r !in list ==> a[r] == b[r]
    ensures LoadedMany(a, mem, address, list) == LoadedMany(b, mem, address, list)
    ensures var l := LoadedMany(a, mem, address, list); l.Some? ==> forall r: Reg :: r !in list ==> l.value[r] == a[r]
    decreases |list|
  {
    hide LoadFrom;
    if list == [] {
      assert a == b;
    } else if LoadFrom(mem, address, 4).Some? {
      var v := LoadFrom(mem, address, 4).value;
      LoadedManyAgree(a[list[0] := v], b[list[0] := v], mem, address + 4, list[1..]);
    }
  }

  lemma {:induction false} LoadManyAgain(prog: seq<Line>, db: bool, base: Reg, list: seq<Reg>, st: State, t: State)
    requires base !in list
    requires PerformLoadMany(prog, db, base, false, list, false, st) == Some(t)
    ensures t.pc == st.pc + 1 && PerformLoadMany(prog, db, base, false, list, false, t) == Some(Next(t))
  {
    hide LoadedMany;
    var a := BlockStart(db, st.regs[base].n, BytesMoved(list, false));
    LoadedManyAgree(st.regs, st.regs, st.mem, a, list);
    LoadedManyAgree(st.regs, t.regs, st.mem, a, list);
  }

  /** The kinds with a function of their own. */
  lemma {:induction false} OwnAgain(prog: seq<Line>, ins: Instruction, st: State, t: State)
    requires Replays(ins) && Falls(ins)
    requires ins.Data? || ins.Short? || ins.Move? || ins.Load? || ins.Store? || ins.LoadMany? || ins.StoreMany?
    requires Perform(prog, ins, st) == Some(t)
    ensures t.pc == st.pc + 1 && Perform(prog, ins, t) == Some(Next(t))
  {
    hide PerformData, PerformMove, PerformLoad, PerformStore, PerformLoadMany, PerformStoreMany, OperandTokens,
      IndexTokens;
    match ins
    case Data(op, s, rd, rn, y) => DataAgain(op, s, rd, rn, y, st, t);
    case Short(op, s, rd, y) => DataAgain(op, s, rd, rd, y, st, t);
    case Move(ext, s, rd, y) => MoveAgain(ext, s, rd, y, st, t);
    case Load(size, rt, base, index) => LoadAgain(size, rt, base, index, st, t);
    case Store(size, rt, base, index) => StoreAgain(size, rt, base, index, st, t);
    case LoadMany(db, base, wb, list, pc) => LoadManyAgain(prog, db, base, list, st, t);
    case StoreMany(db, base, wb, list) => StoreManyAgain(db, base, list, st, t);
  }

  lemma {:induction false} InsertAgain(prog: seq<Line>, rd: Reg, rn: Reg, lsb: nat, width: nat, st: State, t: State)
    requires rd != rn && Perform(prog, Insert(rd, rn, lsb, width), st) == Some(t)
    ensures t.pc == st.pc + 1 && Perform(prog, Insert(rd, rn, lsb, width), t) == Some(Next(t))
  {
    hide InsertedBits;
    InsertedAgain(st.regs[rd].n, st.regs[rn].n, lsb, width, 32);
    assert t.regs[rd := t.regs[rd]] == t.regs;
  }

  lemma {:induction false} PlainAgain(prog: seq<Line>, ins: Instruction, st: State, t: State)
    requires Replays(ins) && Perform(prog, ins, st) == Some(t)
    requires ins.Extract? || ins.Literal? || ins.AddressOf? || ins.ReadFlags? || ins.WriteFlags?
    ensures t.pc == st.pc + 1 && Perform(prog, ins, t) == Some(Next(t))
  {
    hide Extracted, FlagWord, WordFlags, Find, Settle;
    match ins
    case Extract(_, rd, _, _, _) => assert t.regs[rd := t.regs[rd]] == t.regs;
    case Literal(rt, c) => assert t.regs[rt := t.regs[rt]] == t.regs;
    case AddressOf(rd, l) => assert t.regs[rd := t.regs[rd]] == t.regs;
    case ReadFlags(rd) => assert t.regs[rd := t.regs[rd]] == t.regs;
    case WriteFlags(r) =>
  }

  lemma {:induction false} CompareAgain(prog: seq<Line>, rn: Reg, y: Operand, st: State, t: State)
    requires Perform(prog, Compare(rn, y), st) == Some(t)
    ensures t.pc == st.pc + 1 && Perform(prog, Compare(rn, y), t) == Some(Next(t))
  {
    hide Second, CompareFlags;
    SecondNumber(st.regs, y, st.flags.c, t.flags.c);
  }

  /** A second execution of such an instruction changes nothing. */
  lemma {:induction false} PerformAgain(prog: seq<Line>, ins: Instruction, st: State, t: State)
    requires Replays(ins) && Falls(ins)
    requires Perform(prog, ins, st) == Some(t)
    ensures t.pc == st.pc + 1 && Perform(prog, ins, t) == Some(Next(t))
  {
    hide Perform, OperandTokens, IndexTokens;
    match ins
    case Insert(rd, rn, lsb, width) => InsertAgain(prog, rd, rn, lsb, width, st, t);
    case Extract(_, _, _, _, _) => PlainAgain(prog, ins, st, t);
    case Literal(_, _) => PlainAgain(prog, ins, st, t);
    case AddressOf(_, _) => PlainAgain(prog, ins, st, t);
    case ReadFlags(_) => PlainAgain(prog, ins, st, t);
    case WriteFlags(_) => PlainAgain(prog, ins, st, t);
    case Compare(rn, y) => CompareAgain(prog, rn, y, st, t);
    case Test(rn, y) => TestAgain(prog, rn, y, st, t);
    case _ => OwnAgain(prog, ins, st, t);
  }

  lemma {:induction false} TestAgain(prog: seq<Line>, rn: Reg, y: Operand, st: State, t: State)
    requires Perform(prog, Test(rn, y), st) == Some(t)
    ensures t.pc == st.pc + 1 && Perform(prog, Test(rn, y), t) == Some(Next(t))
  {
    hide Second, BitwiseWord;
    SecondStable(st.regs, y, st.flags.c, Second(st.regs, y, st.flags.c).value);
  }
}
