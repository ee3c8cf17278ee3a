/** Two states that hold the same data, the code addresses of the one moved to where the other has them,
    and the spare register aside.  Reading operands, loading, storing and computing give the same on both;
    these are the building blocks for comparing an instruction with what the pass makes of it.  Memory is
    compared cell by cell. */
module ReplacementData {
  import opened Arithmetic
  import opened Thumb
  import opened Replayable
  import opened ReplacementPass
  import opened ReplacementTolerance

  function Moved(place: seq<nat>, v: Value): Value {
    match v
    case Num(_) => v
    case Code(at, thumb) => if at < |place| then Code(place[at], thumb) else v
  }

  function MovedCell(place: seq<nat>, c: Cell): Cell {
    match c
    case Octet(_) => c
    case Part(at, thumb, k) => if at < |place| then Part(place[at], thumb, k) else c
  }

  function MovedMem(place: seq<nat>, mem: Memory): Memory {
    map a | a in mem :: MovedCell(place, mem[a])
  }

  function MovedCells(place: seq<nat>, cells: seq<Cell>): (r: seq<Cell>)
    ensures |r| == |cells|
  {
    seq(|cells|, k requires 0 <= k < |cells| => MovedCell(place, cells[k]))
  }

  /** None of the registers is named. */
  predicate Apart(free: set<Reg>, tokens: seq<int>) {
    forall r | r in free :: r !in tokens
  }

  lemma {:induction false} ApartTokens(free: set<Reg>, ins: Instruction)
    requires Apart(free, Tokens(ins))
    ensures match ins
      case Data(_, _, rd, rn, y) => rd !in free && rn !in free && Apart(free, OperandTokens(y))
      case Short(_, _, rd, y) => rd !in free && Apart(free, OperandTokens(y))
      case Move(_, _, rd, y) => rd !in free && Apart(free, OperandTokens(y))
      case Insert(rd, rn, _, _) => rd !in free && rn !in free
      case Extract(_, rd, rn, _, _) => rd !in free && rn !in free
      case Compare(rn, y) => rn !in free && Apart(free, OperandTokens(y))
      case Test(rn, y) => rn !in free && Apart(free, OperandTokens(y))
      case Load(_, rt, base, index) => rt !in free && base !in free && Apart(free, IndexTokens(index))
      case Store(_, rt, base, index) => rt !in free && base !in free && Apart(free, IndexTokens(index))
      case Literal(rt, _) => rt !in free
      case BranchReg(r) => r !in free
      case CallReg(r) => r !in free
      case BranchZero(_, r, _) => r !in free
      case AddressOf(rd, _) => rd !in free
      case ReadFlags(rd) => rd !in free
      case WriteFlags(r) => r !in free
      case _ => true
  {
    var t := Tokens(ins);
    assert |t| > 0 ==> t[0] in t;
    assert |t| > 1 ==> t[1] in t;
    assert |t| > 2 ==> t[2] in t;
  }

  lemma {:induction false} ApartMany(free: set<Reg>, ins: Instruction)
    requires ins.LoadMany? || ins.StoreMany? || ins.Push? || ins.Pop?
    requires Apart(free, Tokens(ins))
    ensures Apart(free, ins.list)
    ensures ins.LoadMany? || ins.StoreMany? ==> ins.base !in free
  {
    forall r | r in free ensures r !in ins.list {
      if r in ins.list {
        ListTokensHold(ins.list, (ins.LoadMany? || ins.Pop?) && ins.pc, r);
      }
    }
    if ins.LoadMany? || ins.StoreMany? {
      assert Tokens(ins)[0] == ins.base;
    }
  }

  predicate RegsAlike(place: seq<nat>, free: set<Reg>, a: Registers, b: Registers) {
    forall r: Reg | r !in free :: b[r] == Moved(place, a[r])
  }

  /** Equal but for the spare register and the places of code. */
  predicate Alike(place: seq<nat>, free: set<Reg>, s: State, o: State) {
    RegsAlike(place, free, s.regs, o.regs) && o.flags == s.flags && o.mem == MovedMem(place, s.mem)
  }

  // ----- Operands and memory -----

  lemma {:induction false} SecondAlike(place: seq<nat>, free: set<Reg>, a: Registers, b: Registers, y: Operand, c: bool)
    requires RegsAlike(place, free, a, b) && Apart(free, OperandTokens(y)) && Second(a, y, c).Some?
    ensures Second(b, y, c) == Second(a, y, c)
  {
    hide ShiftWord;
  }

  lemma {:induction false} OctetsMoved(place: seq<nat>, cells: seq<Cell>)
    ensures Octets(MovedCells(place, cells)) == Octets(cells)
  {
    if cells != [] {
      assert MovedCells(place, cells)[1..] == MovedCells(place, cells[1..]);
      OctetsMoved(place, cells[1..]);
    }
  }

  lemma {:induction false} CellsMoved(place: seq<nat>, v: Value, size: nat)
    ensures Cells(Moved(place, v), size) == MovedCells(place, Cells(v, size))
  {
    hide Pow2;
  }

  lemma {:induction false} JoinedMoved(place: seq<nat>, cells: seq<Cell>)
    requires Joined(cells).Some?
    ensures Joined(MovedCells(place, cells)) == Some(Moved(place, Joined(cells).value))
  {
    hide Octets;
    OctetsMoved(place, cells);
    if Octets(cells).None? {
      CellsMoved(place, Code(cells[0].at, cells[0].thumb), 4);
    }
  }

  lemma {:induction false} LoadMoved(place: seq<nat>, mem: Memory, address: int, size: nat)
    requires LoadFrom(mem, address, size).Some?
    ensures LoadFrom(MovedMem(place, mem), address, size) == Some(Moved(place, LoadFrom(mem, address, size).value))
  {
    hide Joined;
    JoinedMoved(place, Fetched(mem, address, size));
    assert Fetched(MovedMem(place, mem), address, size) == MovedCells(place, Fetched(mem, address, size));
  }

  lemma {:induction false} StoreMoved(place: seq<nat>, mem: Memory, address: int, cells: seq<Cell>)
    requires StoreTo(mem, address, cells).Some?
    ensures StoreTo(MovedMem(place, mem), address, MovedCells(place, cells)) ==
      Some(MovedMem(place, StoreTo(mem, address, cells).value))
  {
    hide MovedCell;
    var a, b := MovedMem(place, mem) + Patch(address, MovedCells(place, cells)), MovedMem(place,
                         mem + Patch(address, cells));
    forall k | k in a ensures k in b && a[k] == b[k] {
      if k in Patch(address, cells) {
        assert (mem + Patch(address, cells))[k] == cells[k - address];
      }
    }
    assert a == b;
  }

  lemma {:induction false} CellsOfManyMoved(place: seq<nat>, free: set<Reg>, a: Registers, b: Registers, list: seq<Reg>)
    requires RegsAlike(place, free, a, b) && Apart(free, list)
    ensures CellsOfMany(b, list) == MovedCells(place, CellsOfMany(a, list))
  {
    hide Cells;
    if list != [] {
      assert list[0] in list && b[list[0]] == Moved(place, a[list[0]]);
      CellsMoved(place, a[list[0]], 4);
      CellsOfManyMoved(place, free, a, b, list[1..]);
    }
  }

  lemma {:induction false} SetRegs(place: seq<nat>, free: set<Reg>, a: Registers, b: Registers, rd: Reg, v: Value)
    requires RegsAlike(place, free, a, b)
    ensures RegsAlike(place, free, a[rd := v], b[rd := Moved(place, v)])
  {
  }

  lemma {:induction false} LoadedManyMoved(place: seq<nat>, free: set<Reg>, a: Registers, b: Registers, mem: Memory,
                                           address: int, list: seq<Reg>)
    requires RegsAlike(place, free, a, b)
    requires LoadedMany(a, mem, address, list).Some?
    ensures var l := LoadedMany(b, MovedMem(place, mem), address, list);
      l.Some? && RegsAlike(place, free, LoadedMany(a, mem, address, list).value, l.value)
    decreases |list|
  {
    hide LoadFrom, RegsAlike;
    if list != [] {
      LoadMoved(place, mem, address, 4);
      var v := LoadFrom(mem, address, 4).value;
      SetRegs(place, free, a, b, list[0], v);
      LoadedManyMoved(place, free, a[list[0] := v], b[list[0] := Moved(place, v)], mem, address + 4, list[1..]);
    }
  }

  // ----- Instructions that compute their first register -----

  predicate Produces(ins: Instruction) {
    ins.Data? || ins.Short? || ins.Move? || ins.Insert? || ins.Extract? || (ins.Load? && ins.index.Offset?)
  }

  function Destination(ins: Instruction): Reg
    requires Produces(ins)
  {
    match ins
    case Data(_, _, rd, _, _) => rd
    case Short(_, _, rd, _) => rd
    case Move(_, _, rd, _) => rd
    case Insert(rd, _, _, _) => rd
    case Extract(_, rd, _, _, _) => rd
    case Load(_, rt, _, _) => rt
  }

  /** The state after a register and the flags were written. */
  function Wrote(s: State, rd: Reg, v: Value, f: Flags): State {
    Next(Set(s, rd, v).(flags := f))
  }

  lemma {:induction false} DataAlike(place: seq<nat>, free: set<Reg>, op: AluOp, s: bool, rd: Reg, rn: Reg, y: Operand,
                                     x: Reg, st: State, o: State)
    requires Alike(place, free, st, o) && rn !in free && Apart(free, OperandTokens(y))
    requires PerformData(op, s, rd, rn, y, st).Some?
    ensures var t := PerformData(op, s, rd, rn, y, st).value;
      && t == Wrote(st, rd, t.regs[rd], t.flags)
      && PerformData(op, s, x, rn, y, o) == Some(Wrote(o, x, Moved(place, t.regs[rd]), t.flags))
  {
    hide Second, Compute, MovedMem;
    SecondAlike(place, free, st.regs, o.regs, y, st.flags.c);
    MovedData(place, op, s, st.regs[rn], Second(st.regs, y, st.flags.c).value, st.flags);
  }

  lemma {:induction false} MovedData(place: seq<nat>, op: AluOp, s: bool, x: Value, y: Shift, f: Flags)
    requires DataValue(op, s, x, y, f).Some?
    ensures var r := DataValue(op, s, x, y, f).value;
      DataValue(op, s, Moved(place, x), y, f) == Some((Moved(place, r.0), r.1))
  {
    hide Compute;
  }

  lemma {:induction false} MoveAlike(place: seq<nat>, free: set<Reg>, ext: Extension, s: bool, rd: Reg, y: Operand,
                                     x: Reg, st: State, o: State)
    requires Alike(place, free, st, o) && Apart(free, OperandTokens(y))
    requires PerformMove(ext, s, rd, y, st).Some?
    ensures var t := PerformMove(ext, s, rd, y, st).value;
      && t == Wrote(st, rd, t.regs[rd], t.flags)
      && PerformMove(ext, s, x, y, o) == Some(Wrote(o, x, Moved(place, t.regs[rd]), t.flags))
  {
    hide Second, Extend, MovedMem, PerformMove, Alike;
    if y.Plain? && !s && ext == Whole {
      CopyAlike(place, free, rd, y.r, x, st, o);
    } else {
      NumberAlike(place, free, ext, s, rd, y, x, st, o);
    }
  }

  lemma {:induction false} CopyAlike(place: seq<nat>, free: set<Reg>, rd: Reg, r: Reg, x: Reg, st: State, o: State)
    requires Alike(place, free, st, o) && Apart(free, OperandTokens(Plain(r)))
    ensures PerformMove(Whole, false, rd, Plain(r), st) == Some(Wrote(st, rd, st.regs[r], st.flags))
    ensures PerformMove(Whole, false, x, Plain(r), o) == Some(Wrote(o, x, Moved(place, st.regs[r]), st.flags))
  {
    hide MovedMem, Moved;
    assert r in OperandTokens(Plain(r));
  }

  /** A number moved, extended or with the flags set. */
  lemma {:induction false} NumberAlike(place: seq<nat>, free: set<Reg>, ext: Extension, s: bool, rd: Reg, y: Operand,
                                       x: Reg, st: State, o: State)
    requires Alike(place, free, st, o) && Apart(free, OperandTokens(y)) && !(y.Plain? && !s && ext == Whole)
    requires PerformMove(ext, s, rd, y, st).Some?
    ensures var t := PerformMove(ext, s, rd, y, st).value;
      && t == Wrote(st, rd, t.regs[rd], t.flags)
      && PerformMove(ext, s, x, y, o) == Some(Wrote(o, x, Moved(place, t.regs[rd]), t.flags))
  {
    hide Second, Extend, MovedMem, RegsAlike, Logical;
    SecondAlike(place, free, st.regs, o.regs, y, st.flags.c);
  }

  lemma {:induction false} LoadAlike(place: seq<nat>, free: set<Reg>, size: Size, rt: Reg, base: Reg, y: Operand,
                                     x: Reg, st: State, o: State)
    requires Alike(place, free, st, o) && base !in free && Apart(free, OperandTokens(y))
    requires PerformLoad(size, rt, base, Offset(y), st).Some?
    ensures var t := PerformLoad(size, rt, base, Offset(y), st).value;
      && t == Wrote(st, rt, t.regs[rt], t.flags)
      && PerformLoad(size, x, base, Offset(y), o) == Some(Wrote(o, x, Moved(place, t.regs[rt]), t.flags))
  {
    hide Second, LoadFrom, MovedMem;
    SecondAlike(place, free, st.regs, o.regs, y, st.flags.c);
    LoadMoved(place, st.mem, Addressed(base, Offset(y), st).value.0, SizeOf(size));
  }

  /** On alike states, the instruction computes the moved result, into its own register or the spare one. */
  lemma {:induction false} ProducedAlike(place: seq<nat>, free: set<Reg>, prog: seq<Line>, prog': seq<Line>,
                                         ins: Instruction, x: Reg, st: State, o: State)
    requires Alike(place, free, st, o) && Apart(free, Tokens(ins)) && Produces(ins)
    requires x == Destination(ins) || !(ins.Short? || ins.Insert?)
    requires Perform(prog, ins, st).Some?
    ensures var t, rd := Perform(prog, ins, st).value, Destination(ins);
      && t == Wrote(st, rd, t.regs[rd], t.flags)
      && Perform(prog', WithFirst(ins, x), o) == Some(Wrote(o, x, Moved(place, t.regs[rd]), t.flags))
  {
    hide PerformData, PerformMove, PerformLoad, MovedMem, Tokens, Thumb.Inserted, Extracted;
    ApartTokens(free, ins);
    match ins
    case Data(op, s, rd, rn, y) => DataAlike(place, free, op, s, rd, rn, y, x, st, o);
    case Short(op, s, rd, y) => DataAlike(place, free, op, s, rd, rd, y, x, st, o);
    case Move(ext, s, rd, y) => MoveAlike(place, free, ext, s, rd, y, x, st, o);
    case Load(size, rt, base, index) => LoadAlike(place, free, size, rt, base, index.y, x, st, o);
    case Insert(_, _, _, _) =>
    case Extract(_, _, _, _, _) =>
  }

  // ----- Other instructions -----

  lemma {:induction false} SetAlike(place: seq<nat>, free: set<Reg>, s: State, o: State, rd: Reg, v: Value)
    requires Alike(place, free, s, o)
    ensures Alike(place, free, Set(s, rd, v), Set(o, rd, Moved(place, v)))
  {
    hide MovedMem;
    SetRegs(place, free, s.regs, o.regs, rd, v);
  }

  /** The registers aside may hold anything. */
  lemma {:induction false} FreeAlike(place: seq<nat>, free: set<Reg>, s: State, o: State, r: Reg, v: Value)
    requires Alike(place, free, s, o) && r in free
    ensures Alike(place, free, s, Set(o, r, v))
  {
    hide MovedMem;
  }

  lemma {:induction false} AddressedAlike(place: seq<nat>, free: set<Reg>, base: Reg, index: Index, st: State, o: State)
    requires Alike(place, free, st, o) && base !in free && Apart(free, IndexTokens(index))
    requires Addressed(base, index, st).Some?
    ensures Addressed(base, index, o) == Addressed(base, index, st)
  {
    hide Second, MovedMem;
    if index.Offset? {
      SecondAlike(place, free, st.regs, o.regs, index.y, st.flags.c);
    }
  }

  lemma {:induction false} SetBaseAlike(place: seq<nat>, free: set<Reg>, base: Reg, index: Index, b: Word, st: State,
                                        o: State)
    requires Alike(place, free, st, o)
    ensures Alike(place, free, SetBase(st, base, index, b), SetBase(o, base, index, b))
  {
    hide Alike;
    SetAlike(place, free, st, o, base, Num(b));
  }

  lemma {:induction false} TransferLoadAlike(place: seq<nat>, free: set<Reg>, size: Size, rt: Reg, base: Reg,
                                             index: Index, st: State, o: State)
    requires Alike(place, free, st, o) && base !in free && Apart(free, IndexTokens(index))
    requires PerformLoad(size, rt, base, index, st).Some?
    ensures var t, w := PerformLoad(size, rt, base, index, st).value, PerformLoad(size, rt, base, index, o);
      t.pc == st.pc + 1 && w.Some? && Alike(place, free, t, w.value) && w.value.pc == o.pc + 1
  {
    hide Addressed, LoadFrom, SetBase, MovedMem, RegsAlike;
    var a := Addressed(base, index, st).value;
    AddressedAlike(place, free, base, index, st, o);
    LoadMoved(place, st.mem, a.0, SizeOf(size));
    SetBaseAlike(place, free, base, index, a.1, st, o);
    BasePc(base, index, a.1, st);
    BasePc(base, index, a.1, o);
    SetAlike(place, free, SetBase(st, base, index, a.1), SetBase(o, base, index, a.1), rt,
             LoadFrom(st.mem, a.0, SizeOf(size)).value);
  }

  lemma {:induction false} BasePc(base: Reg, index: Index, b: Word, st: State)
    ensures var t := SetBase(st, base, index, b); t.pc == st.pc && t.mem == st.mem && t.flags == st.flags
  {
  }

  lemma {:induction false} TransferStoreAlike(place: seq<nat>, free: set<Reg>, size: Size, rt: Reg, base: Reg,
                                              index: Index, st: State, o: State)
    requires Alike(place, free, st, o) && rt !in free && base !in free && Apart(free, IndexTokens(index))
    requires PerformStore(size, rt, base, index, st).Some?
    ensures var t, w := PerformStore(size, rt, base, index, st).value, PerformStore(size, rt, base, index, o);
      t.pc == st.pc + 1 && w.Some? && Alike(place, free, t, w.value) && w.value.pc == o.pc + 1
  {
    hide Addressed, StoreTo, SetBase, MovedMem, CellOf;
    var a := Addressed(base, index, st).value;
    AddressedAlike(place, free, base, index, st, o);
    CellsMoved(place, st.regs[rt], SizeOf(size));
    StoreMoved(place, st.mem, a.0, Cells(st.regs[rt], SizeOf(size)));
    SetBaseAlike(place, free, base, index, a.1, st, o);
    BasePc(base, index, a.1, st);
    BasePc(base, index, a.1, o);
  }

  lemma {:induction false} StoreManyAlike(place: seq<nat>, free: set<Reg>, db: bool, base: Reg, wb: bool,
                                          list: seq<Reg>, st: State, o: State)
    requires Alike(place, free, st, o) && base !in free && Apart(free, list)
    requires PerformStoreMany(db, base, wb, list, st).Some?
    ensures var t, w := PerformStoreMany(db, base, wb, list, st).value, PerformStoreMany(db, base, wb, list, o);
      t.pc == st.pc + 1 && w.Some? && Alike(place, free, t, w.value) && w.value.pc == o.pc + 1
  {
    hide CellsOfMany, StoreTo, MovedMem;
    var b := st.regs[base].n;
    var a := BlockStart(db, b, BytesMoved(list, false));
    CellsOfManyMoved(place, free, st.regs, o.regs, list);
    StoreMoved(place, st.mem, a, CellsOfMany(st.regs, list));
    SetRegs(place, free, st.regs, o.regs, base, Num(BlockEnd(db, b, BytesMoved(list, false))));
  }

  /** A block load: the same registers, and if it branches the moved value to branch to. */
  lemma {:induction false} LoadManyAlike(place: seq<nat>, free: set<Reg>, prog: seq<Line>, prog': seq<Line>,
                                         db: bool, base: Reg, wb: bool, list: seq<Reg>, pc: bool, st: State, o: State)
    returns (t0: State, o0: State)
    requires Alike(place, free, st, o) && base !in free
    requires PerformLoadMany(prog, db, base, wb, list, pc, st).Some?
    ensures st.regs[base].Num?
    ensures
      var t := PerformLoadMany(prog, db, base, wb, list, pc, st).value;
      var w := PerformLoadMany(prog', db, base, wb, list, pc, o);
      if pc then
        var v := LoadFrom(st.mem, BlockStart(db, st.regs[base].n, BytesMoved(list, pc)) + 4 * |list|, 4);
        v.Some? && Alike(place, free, t0, o0) &&
        Some(t) == GoToValue(prog, v.value, t0) && w == GoToValue(prog', Moved(place, v.value), o0)
      else t.pc == st.pc + 1 && w.Some? && Alike(place, free, t, w.value) && w.value.pc == o.pc + 1
  {
    hide LoadedMany, LoadFrom, MovedMem, GoToValue, RegsAlike;
    assert o.regs[base] == Moved(place, st.regs[base]) by { RegAlike(place, free, st, o, base); }
    var b := st.regs[base].n;
    var a := BlockStart(db, b, BytesMoved(list, pc));
    LoadedManyMoved(place, free, st.regs, o.regs, st.mem, a, list);
    var regs, regs' := LoadedMany(st.regs, st.mem, a, list).value, LoadedMany(o.regs, o.mem, a, list).value;
    SetRegs(place, free, regs, regs', base, Num(BlockEnd(db, b, BytesMoved(list, pc))));
    t0, o0 := st, o;
    if pc {
      LoadMoved(place, st.mem, a + 4 * |list|, 4);
      var after := if wb then regs[base := Num(BlockEnd(db, b, BytesMoved(list, pc)))] else regs;
      var after' := if wb then regs'[base := Num(BlockEnd(db, b, BytesMoved(list, pc)))] else regs';
      t0, o0 := st.(regs := after), o.(regs := after');
    }
  }

  lemma {:induction false} RegAlike(place: seq<nat>, free: set<Reg>, st: State, o: State, r: Reg)
    requires Alike(place, free, st, o) && r !in free
    ensures o.regs[r] == Moved(place, st.regs[r])
  {
    hide MovedMem;
  }

  lemma {:induction false} WroteAlike(place: seq<nat>, free: set<Reg>, s: State, o: State, rd: Reg, v: Value, f: Flags)
    requires Alike(place, free, s, o)
    ensures Alike(place, free, Wrote(s, rd, v, f), Wrote(o, rd, Moved(place, v), f))
  {
    hide MovedMem;
    SetRegs(place, free, s.regs, o.regs, rd, v);
  }

  lemma {:induction false} NextAlike(place: seq<nat>, free: set<Reg>, s: State, o: State)
    requires Alike(place, free, s, o)
    ensures Alike(place, free, Next(s), Next(o))
  {
  }

  lemma {:induction false} FlagsAlike(place: seq<nat>, free: set<Reg>, s: State, o: State)
    requires Alike(place, free, s, o)
    ensures o.flags == s.flags
  {
  }

  lemma {:induction false} SameWrote(s: State, o: State, rd: Reg, v: Value, w: Value)
    ensures Wrote(s, rd, v, s.flags) == Next(Set(s, rd, v)) && Wrote(o, rd, w, o.flags) == Next(Set(o, rd, w))
  {
  }

  lemma {:induction false} MovedPc(place: seq<nat>, free: set<Reg>, s: State, o: State, pc: nat)
    requires Alike(place, free, s, o)
    ensures Alike(place, free, s, o.(pc := pc))
  {
  }

  lemma {:induction false} DataOnly(place: seq<nat>, free: set<Reg>, s: State, o: State, w: State)
    requires Alike(place, free, s, o) && w.regs == o.regs && w.flags == o.flags && w.mem == o.mem
    ensures Alike(place, free, s, w)
  {
  }

  // ----- Instructions that go on -----

  /** Instructions that go on to the next line and take no address from the program. */
  predicate GoesOn(ins: Instruction) {
    Falls(ins) && !ins.AddressOf? && (ins.Literal? ==> ins.c.Number?)
  }

  /** Both sides go on, alike again. */
  ghost predicate OnAlike(place: seq<nat>, free: set<Reg>, prog: seq<Line>, prog': seq<Line>, ins: Instruction,
                          s: State, o: State)
    requires Perform(prog, ins, s).Some?
  {
    var t, w := Perform(prog, ins, s).value, Perform(prog', ins, o);
    w.Some? && Alike(place, free, t, w.value) && t.pc == s.pc + 1 && w.value.pc == o.pc + 1
  }

  lemma {:induction false} ProducedOn(place: seq<nat>, free: set<Reg>, prog: seq<Line>, prog': seq<Line>,
                                      ins: Instruction, s: State, o: State)
    requires Alike(place, free, s, o) && Apart(free, Tokens(ins)) && Produces(ins)
    requires Perform(prog, ins, s).Some?
    ensures OnAlike(place, free, prog, prog', ins, s, o)
  {
    hide Perform, Alike;
    var t, rd := Perform(prog, ins, s).value, Destination(ins);
    ProducedAlike(place, free, prog, prog', ins, rd, s, o);
    assert WithFirst(ins, rd) == ins;
    WroteAlike(place, free, s, o, rd, t.regs[rd], t.flags);
  }

  lemma {:induction false} TestsOn(place: seq<nat>, free: set<Reg>, prog: seq<Line>, prog': seq<Line>, ins: Instruction,
                                   s: State, o: State)
    requires ins.Compare? || ins.Test?
    requires Alike(place, free, s, o) && Apart(free, OperandTokens(ins.y)) && ins.rn !in free
    requires Perform(prog, ins, s).Some?
    ensures OnAlike(place, free, prog, prog', ins, s, o)
  {
    hide Second, Logical, CompareFlags, MovedMem, BitwiseWord;
    SecondAlike(place, free, s.regs, o.regs, ins.y, s.flags.c);
  }

  lemma {:induction false} FlagsOn(place: seq<nat>, free: set<Reg>, prog: seq<Line>, prog': seq<Line>, ins: Instruction,
                                   s: State, o: State)
    requires Alike(place, free, s, o) && Apart(free, Tokens(ins))
    requires ins.Compare? || ins.Test? || ins.ReadFlags? || ins.WriteFlags?
    requires Perform(prog, ins, s).Some?
    ensures OnAlike(place, free, prog, prog', ins, s, o)
  {
    hide FlagWord, WordFlags, MovedMem, Tokens;
    ApartTokens(free, ins);
    if ins.Compare? || ins.Test? {
      TestsOn(place, free, prog, prog', ins, s, o);
    } else if ins.ReadFlags? {
      SetRegs(place, free, s.regs, o.regs, ins.rd, Num(FlagWord(s.flags)));
    }
  }

  lemma {:induction false} TransferOn(place: seq<nat>, free: set<Reg>, prog: seq<Line>, prog': seq<Line>,
                                      ins: Instruction, s: State, o: State)
    requires Alike(place, free, s, o) && Apart(free, Tokens(ins)) && SP !in free
    requires ins.Load? || ins.Store? || ins.StoreMany? || ins.Push?
    requires Perform(prog, ins, s).Some?
    ensures OnAlike(place, free, prog, prog', ins, s, o)
  {
    hide PerformLoad, PerformStore, PerformStoreMany, Alike, Tokens;
    ApartTokens(free, ins);
    match ins
    case Load(size, rt, base, index) => TransferLoadAlike(place, free, size, rt, base, index, s, o);
    case Store(size, rt, base, index) => TransferStoreAlike(place, free, size, rt, base, index, s, o);
    case StoreMany(db, base, wb, list) =>
      ApartMany(free, ins);
      StoreManyAlike(place, free, db, base, wb, list, s, o);
    case Push(list) =>
      ApartMany(free, ins);
      StoreManyAlike(place, free, true, SP, true, list, s, o);
  }

  lemma {:induction false} LoadManyOn(place: seq<nat>, free: set<Reg>, prog: seq<Line>, prog': seq<Line>,
                                      ins: Instruction, s: State, o: State)
    requires Alike(place, free, s, o) && Apart(free, Tokens(ins)) && SP !in free
    requires (ins.LoadMany? || ins.Pop?) && !ins.pc
    requires Perform(prog, ins, s).Some?
    ensures OnAlike(place, free, prog, prog', ins, s, o)
  {
    hide PerformLoadMany, Alike, Tokens;
    ApartMany(free, ins);
    match ins
    case LoadMany(db, base, wb, list, pc) =>
      var t0, o0 := LoadManyAlike(place, free, prog, prog', db, base, wb, list, pc, s, o);
    case Pop(list, pc) =>
      var t0, o0 := LoadManyAlike(place, free, prog, prog', false, SP, true, list, pc, s, o);
  }

  lemma {:induction false} NumberOn(place: seq<nat>, free: set<Reg>, prog: seq<Line>, prog': seq<Line>,
                                    ins: Instruction, s: State, o: State)
    requires Alike(place, free, s, o) && ins.Literal? && ins.c.Number?
    ensures OnAlike(place, free, prog, prog', ins, s, o)
  {
    hide MovedMem;
    SetRegs(place, free, s.regs, o.regs, ins.rt, Num(ins.c.n));
  }

  /** On alike states an instruction that goes on has the same effect in any two programs. */
  lemma {:induction false} GoesOnAlike(place: seq<nat>, free: set<Reg>, prog: seq<Line>, prog': seq<Line>,
                                       ins: Instruction, s: State, o: State)
    requires Alike(place, free, s, o) && Apart(free, Tokens(ins)) && SP !in free && GoesOn(ins)
    requires Perform(prog, ins, s).Some?
    ensures OnAlike(place, free, prog, prog', ins, s, o)
  {
    hide Perform, Alike, OnAlike, Tokens;
    if Produces(ins) {
      ProducedOn(place, free, prog, prog', ins, s, o);
    } else {
      match ins
      case LoadMany(_, _, _, _, _) => LoadManyOn(place, free, prog, prog', ins, s, o);
      case Pop(_, _) => LoadManyOn(place, free, prog, prog', ins, s, o);
      case Literal(_, _) => NumberOn(place, free, prog, prog', ins, s, o);
      case Compare(_, _) => FlagsOn(place, free, prog, prog', ins, s, o);
      case Test(_, _) => FlagsOn(place, free, prog, prog', ins, s, o);
      case ReadFlags(_) => FlagsOn(place, free, prog, prog', ins, s, o);
      case WriteFlags(_) => FlagsOn(place, free, prog, prog', ins, s, o);
      case _ => TransferOn(place, free, prog, prog', ins, s, o);
    }
  }
}
