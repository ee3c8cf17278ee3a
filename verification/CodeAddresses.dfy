/** The code addresses a state holds, and what an instruction may add to them.  A program can only get
    at the addresses of labels and of lines behind calls; so when these lie between pairs, no jump ever
    enters a pair at its second half.  Values are followed through registers, through memory bytes and
    through block transfers. */
module CodeAddresses {
  import opened Arithmetic
  import opened Thumb

  predicate Among(ok: set<nat>, v: Value) {
    v.Code? ==> v.at in ok
  }

  predicate CellAmong(ok: set<nat>, c: Cell) {
    c.Part? ==> c.at in ok
  }

  predicate RegistersAmong(ok: set<nat>, regs: Registers) {
    forall r: Reg :: Among(ok, regs[r])
  }

  predicate MemoryAmong(ok: set<nat>, mem: Memory) {
    forall a | a in mem :: CellAmong(ok, mem[a])
  }

  /** All code addresses in registers and memory come from a given set. */
  predicate StateAmong(ok: set<nat>, st: State) {
    RegistersAmong(ok, st.regs) && MemoryAmong(ok, st.mem)
  }

  lemma {:induction false} JoinedAmong(ok: set<nat>, cells: seq<Cell>)
    requires forall k | 0 <= k < |cells| :: CellAmong(ok, cells[k])
    ensures Joined(cells).Some? ==> Among(ok, Joined(cells).value)
  {
    hide Octets, CellOf;
  }

  lemma {:induction false} LoadAmong(ok: set<nat>, mem: Memory, address: int, size: nat)
    requires MemoryAmong(ok, mem)
    ensures var v := LoadFrom(mem, address, size); v.Some? ==> Among(ok, v.value)
  {
    hide Joined, Among, CellAmong;
    if Mapped(mem, address, size) {
      JoinedAmong(ok, Fetched(mem, address, size));
    }
  }

  lemma {:induction false} StoreAmong(ok: set<nat>, mem: Memory, address: int, cells: seq<Cell>)
    requires MemoryAmong(ok, mem)
    requires forall k | 0 <= k < |cells| :: CellAmong(ok, cells[k])
    ensures MemoryAmong(ok, mem + Patch(address, cells))
  {
    hide CellAmong;
    var after := mem + Patch(address, cells);
    forall a | a in after ensures CellAmong(ok, after[a]) {
      if a in Patch(address, cells) {
        assert after[a] == cells[a - address];
      } else {
        assert after[a] == mem[a];
      }
    }
  }

  lemma {:induction false} LoadedManyAmong(ok: set<nat>, regs: Registers, mem: Memory, address: int, list: seq<Reg>)
    requires RegistersAmong(ok, regs) && MemoryAmong(ok, mem)
    ensures var l := LoadedMany(regs, mem, address, list); l.Some? ==> RegistersAmong(ok, l.value)
    decreases |list|
  {
    hide LoadFrom, MemoryAmong, Among;
    if list != [] && LoadFrom(mem, address, 4).Some? {
      LoadAmong(ok, mem, address, 4);
      var v := LoadFrom(mem, address, 4).value;
      LoadedManyAmong(ok, regs[list[0] := v], mem, address + 4, list[1..]);
    }
  }

  lemma {:induction false} CellsOfManyAmong(ok: set<nat>, regs: Registers, list: seq<Reg>)
    requires RegistersAmong(ok, regs)
    ensures forall k | 0 <= k < |CellsOfMany(regs, list)| :: CellAmong(ok, CellsOfMany(regs, list)[k])
  {
    if list != [] {
      CellsOfManyAmong(ok, regs, list[1..]);
      assert Among(ok, regs[list[0]]);
    }
  }

  lemma {:induction false} SetAmong(ok: set<nat>, regs: Registers, rd: Reg, v: Value)
    requires RegistersAmong(ok, regs) && Among(ok, v)
    ensures RegistersAmong(ok, regs[rd := v])
  {
  }

  lemma {:induction false} OwnAmong(prog: seq<Line>, ok: set<nat>, ins: Instruction, st: State)
    requires StateAmong(ok, st) && forall i: nat | i < |prog| && prog[i].Label? :: i in ok && Settle(prog, i) in ok
    requires ins.Data? || ins.Short? || ins.Move? || ins.Load? || ins.Store? || ins.LoadMany? || ins.StoreMany? ||
             ins.Push? || ins.Pop?
    requires Perform(prog, ins, st).Some?
    ensures var t := Perform(prog, ins, st).value; StateAmong(ok, t) && (t.pc == st.pc + 1 || t.pc in ok)
  {
    hide StateAmong, PerformLoad, PerformStore, PerformLoadMany, PerformStoreMany, PerformData, PerformMove;
    match ins
    case Data(op, s, rd, rn, y) => DataAmong(ok, op, s, rd, rn, y, st);
    case Short(op, s, rd, y) => DataAmong(ok, op, s, rd, rd, y, st);
    case Move(ext, s, rd, y) => MoveAmong(ok, ext, s, rd, y, st);
    case Load(size, rt, base, index) => PerformLoadAmong(ok, size, rt, base, index, st);
    case Store(size, rt, base, index) => PerformStoreAmong(ok, size, rt, base, index, st);
    case LoadMany(db, base, wb, list, pc) => PerformLoadManyAmong(prog, ok, db, base, wb, list, pc, st);
    case StoreMany(db, base, wb, list) => PerformStoreManyAmong(ok, db, base, wb, list, st);
    case Push(list) => PerformStoreManyAmong(ok, true, SP, true, list, st);
    case Pop(list, pc) => PerformLoadManyAmong(prog, ok, false, SP, true, list, pc, st);
  }

  lemma {:induction false} JumpAmong(prog: seq<Line>, ok: set<nat>, ins: Instruction, st: State)
    requires StateAmong(ok, st) && forall i: nat | i < |prog| && prog[i].Label? :: i in ok && Settle(prog, i) in ok
    requires ins.Call? || ins.CallReg? ==> Settle(prog, st.pc + 1) in ok
    requires ins.Branch? || ins.Call? || ins.BranchReg? || ins.CallReg? || ins.BranchZero?
    requires Perform(prog, ins, st).Some?
    ensures var t := Perform(prog, ins, st).value; StateAmong(ok, t) && (t.pc == st.pc + 1 || t.pc in ok)
  {
    hide Find, Settle, RegistersAmong, MemoryAmong, Among;
    match ins
    case Branch(l) =>
    case Call(l) => AddressAmong(ok, st.regs, LR, Settle(prog, st.pc + 1), true);
    case BranchReg(r) => assert Among(ok, st.regs[r]) by { RegisterAmong(ok, st.regs, r); } TargetAmong(ok, st.regs[r]);
    case CallReg(r) =>
      AddressAmong(ok, st.regs, LR, Settle(prog, st.pc + 1), true);
      RegisterAmong(ok, st.regs, r);
      TargetAmong(ok, st.regs[r]);
    case BranchZero(_, _, _) =>
  }

  lemma {:induction false} PlainAmong(prog: seq<Line>, ok: set<nat>, ins: Instruction, st: State)
    requires StateAmong(ok, st) && forall i: nat | i < |prog| && prog[i].Label? :: i in ok && Settle(prog, i) in ok
    requires ins.Insert? || ins.Extract? || ins.Compare? || ins.Test? || ins.Literal? || ins.AddressOf? ||
             ins.ReadFlags? || ins.WriteFlags?
    requires Perform(prog, ins, st).Some?
    ensures var t := Perform(prog, ins, st).value; StateAmong(ok, t) && t.pc == st.pc + 1
  {
    hide Second, Inserted, Extracted, FlagWord, WordFlags, CompareFlags, Logical, Find, Settle, RegistersAmong,
      MemoryAmong, Among;
    match ins
    case Insert(rd, rn, lsb, width) => NumberAmong(ok, st.regs, rd, Inserted(st.regs[rd].n, st.regs[rn].n, lsb, width));
    case Extract(signed, rd, rn, lsb, width) =>
      NumberAmong(ok, st.regs, rd, Extracted(signed, st.regs[rn].n, lsb, width));
    case Compare(_, _) =>
    case Test(_, _) =>
    case Literal(rt, c) =>
      if c.Number? {
        NumberAmong(ok, st.regs, rt, c.n);
      } else {
        AddressAmong(ok, st.regs, rt, Settle(prog, Find(prog, c.l).value), c.thumb);
      }
    case AddressOf(rd, l) => AddressAmong(ok, st.regs, rd, Settle(prog, Find(prog, l).value), false);
    case ReadFlags(rd) => NumberAmong(ok, st.regs, rd, FlagWord(st.flags));
    case WriteFlags(_) =>
  }

  /** Executing an instruction brings no new code addresses but those of labels and of the next line. */
  lemma {:induction false} PerformAmong(prog: seq<Line>, ok: set<nat>, ins: Instruction, st: State)
    requires StateAmong(ok, st)
    requires forall i: nat | i < |prog| && prog[i].Label? :: i in ok && Settle(prog, i) in ok
    requires ins.Call? || ins.CallReg? ==> Settle(prog, st.pc + 1) in ok
    requires Perform(prog, ins, st).Some?
    ensures var t := Perform(prog, ins, st).value; StateAmong(ok, t) && (t.pc == st.pc + 1 || t.pc in ok)
  {
    hide Perform, StateAmong, Settle;
    if ins.Branch? || ins.Call? || ins.BranchReg? || ins.CallReg? || ins.BranchZero? {
      JumpAmong(prog, ok, ins, st);
    } else if ins.Insert? || ins.Extract? || ins.Compare? || ins.Test? || ins.Literal? || ins.AddressOf? ||
              ins.ReadFlags? || ins.WriteFlags? {
      PlainAmong(prog, ok, ins, st);
    } else {
      OwnAmong(prog, ok, ins, st);
    }
  }

  lemma {:induction false} RegisterAmong(ok: set<nat>, regs: Registers, r: Reg)
    requires RegistersAmong(ok, regs)
    ensures Among(ok, regs[r])
  {
  }

  lemma {:induction false} TargetAmong(ok: set<nat>, v: Value)
    requires Among(ok, v)
    ensures v.Code? ==> v.at in ok
  {
  }

  lemma {:induction false} NumberAmong(ok: set<nat>, regs: Registers, rd: Reg, n: Word)
    requires RegistersAmong(ok, regs)
    ensures RegistersAmong(ok, regs[rd := Num(n)])
  {
  }

  lemma {:induction false} AddressAmong(ok: set<nat>, regs: Registers, rd: Reg, at: nat, thumb: bool)
    requires RegistersAmong(ok, regs) && at in ok
    ensures RegistersAmong(ok, regs[rd := Code(at, thumb)])
  {
  }

  lemma {:induction false} DataAmong(ok: set<nat>, op: AluOp, s: bool, rd: Reg, rn: Reg, y: Operand, st: State)
    requires StateAmong(ok, st) && PerformData(op, s, rd, rn, y, st).Some?
    ensures var t := PerformData(op, s, rd, rn, y, st).value; StateAmong(ok, t) && t.pc == st.pc + 1
  {
    hide Second, Compute, MemoryAmong, RegistersAmong;
    RegisterAmong(ok, st.regs, rn);
    var r := DataValue(op, s, st.regs[rn], Second(st.regs, y, st.flags.c).value, st.flags).value;
    SetAmong(ok, st.regs, rd, r.0);
  }

  lemma {:induction false} MoveAmong(ok: set<nat>, ext: Extension, s: bool, rd: Reg, y: Operand, st: State)
    requires StateAmong(ok, st) && PerformMove(ext, s, rd, y, st).Some?
    ensures var t := PerformMove(ext, s, rd, y, st).value; StateAmong(ok, t) && t.pc == st.pc + 1
  {
    hide Second, Extend, MemoryAmong;
  }

  lemma {:induction false} SetBaseAmong(ok: set<nat>, base: Reg, index: Index, b: Word, st: State)
    requires StateAmong(ok, st)
    ensures StateAmong(ok, SetBase(st, base, index, b)) && SetBase(st, base, index, b).pc == st.pc
    ensures SetBase(st, base, index, b).mem == st.mem
  {
  }

  lemma {:induction false} PerformLoadAmong(ok: set<nat>, size: Size, rt: Reg, base: Reg, index: Index, st: State)
    requires StateAmong(ok, st) && PerformLoad(size, rt, base, index, st).Some?
    ensures var t := PerformLoad(size, rt, base, index, st).value; StateAmong(ok, t) && t.pc == st.pc + 1
  {
    hide Addressed, LoadFrom, SetBase, Among, MemoryAmong, RegistersAmong;
    var a := Addressed(base, index, st).value;
    LoadAmong(ok, st.mem, a.0, SizeOf(size));
    SetBaseAmong(ok, base, index, a.1, st);
    SetAmong(ok, SetBase(st, base, index, a.1).regs, rt, LoadFrom(st.mem, a.0, SizeOf(size)).value);
  }

  lemma {:induction false} PerformStoreAmong(ok: set<nat>, size: Size, rt: Reg, base: Reg, index: Index, st: State)
    requires StateAmong(ok, st) && PerformStore(size, rt, base, index, st).Some?
    ensures var t := PerformStore(size, rt, base, index, st).value; StateAmong(ok, t) && t.pc == st.pc + 1
  {
    hide Addressed, SetBase, MemoryAmong, RegistersAmong;
    var a := Addressed(base, index, st).value;
    RegisterAmong(ok, st.regs, rt);
    StoreAmong(ok, st.mem, a.0, Cells(st.regs[rt], SizeOf(size)));
    SetBaseAmong(ok, base, index, a.1, st);
  }

  lemma {:induction false} PerformStoreManyAmong(ok: set<nat>, db: bool, base: Reg, wb: bool, list: seq<Reg>, st: State)
    requires StateAmong(ok, st) && PerformStoreMany(db, base, wb, list, st).Some?
    ensures var t := PerformStoreMany(db, base, wb, list, st).value; StateAmong(ok, t) && t.pc == st.pc + 1
  {
    hide CellsOfMany, CellAmong, RegistersAmong, MemoryAmong;
    var b := st.regs[base].n;
    CellsOfManyAmong(ok, st.regs, list);
    StoreAmong(ok, st.mem, BlockStart(db, b, BytesMoved(list, false)), CellsOfMany(st.regs, list));
    NumberAmong(ok, st.regs, base, BlockEnd(db, b, BytesMoved(list, false)));
  }

  lemma {:induction false} PerformLoadManyAmong(prog: seq<Line>, ok: set<nat>, db: bool, base: Reg, wb: bool,
                                                list: seq<Reg>, pc: bool, st: State)
    requires StateAmong(ok, st) && PerformLoadMany(prog, db, base, wb, list, pc, st).Some?
    ensures var t := PerformLoadMany(prog, db, base, wb, list, pc, st).value;
      StateAmong(ok, t) && (t.pc == st.pc + 1 || t.pc in ok)
  {
    hide LoadedMany, LoadFrom, RegistersAmong, MemoryAmong;
    var b := st.regs[base].n;
    var a := BlockStart(db, b, BytesMoved(list, pc));
    LoadedManyAmong(ok, st.regs, st.mem, a, list);
    var regs := LoadedMany(st.regs, st.mem, a, list).value;
    NumberAmong(ok, regs, base, BlockEnd(db, b, BytesMoved(list, pc)));
    LoadAmong(ok, st.mem, a + 4 * |list|, 4);
  }
}
