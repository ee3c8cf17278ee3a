/** One instruction in the source and in the output of the signature pass: executed on states with the same
    data, it has the same effect, and goes to corresponding places.  The registers reserved for the checks
    are left alone by the program. */
module ControlMeaning {
  import opened Arithmetic
  import opened ControlChecks
  import opened ControlOutput
  import opened ControlPaths
  import opened ReplacementData
  import opened SignaturePass
  import opened Thumb

  // ----- One instruction on both sides -----

  /** An instruction leaves a register alone that it does not name, but for the stack pointer and the link
      register. */
  lemma {:induction false} Untouched(prog: seq<Line>, ins: Instruction, s: State, r: Reg)
    requires r !in Tokens(ins) && r != SP && r != LR && Perform(prog, ins, s).Some?
    ensures Perform(prog, ins, s).value.regs[r] == s.regs[r]
  {
    hide Second, DataValue, Extend, Inserted, Extracted, Logical, CompareFlags, LoadFrom, StoreTo, LoadedMany,
      ShiftWord,
      CellsOfMany, Addressed, FlagWord, WordFlags, Settle, BlockStart, BlockEnd, Find;
    ApartTokens({r}, ins);
    if ins.LoadMany? || ins.Pop? {
      var base := if ins.Pop? then SP else ins.base;
      var db := ins.LoadMany? && ins.db;
      ApartMany({r}, ins);
      LoadedManyLeaves(s.regs, s.mem, BlockStart(db, s.regs[base].n, BytesMoved(ins.list, ins.pc)), ins.list, r);
    } else if ins.StoreMany? {
      ApartMany({r}, ins);
    }
  }

  lemma {:induction false} LoadedManyLeaves(regs: Registers, mem: Memory, address: int, list: seq<Reg>, r: Reg)
    requires r !in list && LoadedMany(regs, mem, address, list).Some?
    ensures LoadedMany(regs, mem, address, list).value[r] == regs[r]
    decreases |list|
  {
    hide LoadFrom;
    if list != [] {
      var v := LoadFrom(mem, address, 4).value;
      LoadedManyLeaves(regs[list[0] := v], mem, address + 4, list[1..], r);
    }
  }

  /** The instruction jumps to a label. */
  predicate JumpsTo(ins: Instruction, s: State) {
    ins.Branch? || ins.Call? || (ins.BranchZero? && s.regs[ins.r].Num? && (s.regs[ins.r].n == 0) != ins.nonzero)
  }

  /** Both sides have the same data afterwards, and are at corresponding places. */
  ghost predicate Effect(j: Job, ins: Instruction, s: State, a: State)
    requires Eligible(j) && Perform(j.lines, ins, s).Some?
  {
    var t, v := Perform(j.lines, ins, s).value, Perform(Output(j), ins, a);
    && v.Some? && Alike(Places(j), Free(j.c), t, v.value)
    && (if JumpsTo(ins, s) then t.pc < |j.lines| && j.lines[t.pc] == Label(ins.l) && v.value.pc == Head(j, t.pc)
        else if Returns(ins) then t.pc <= |j.lines| && v.value.pc == Places(j)[t.pc]
        else t.pc == s.pc + 1 && v.value.pc == a.pc + 1)
  }

  lemma {:induction false} GoToEffect(j: Job, l: nat, s: State, a: State)
    requires Eligible(j) && Alike(Places(j), Free(j.c), s, a) && GoTo(j.lines, l, s).Some?
    ensures var t, v := GoTo(j.lines, l, s).value, GoTo(Output(j), l, a);
      && v.Some? && Alike(Places(j), Free(j.c), t, v.value)
      && t.pc < |j.lines| && j.lines[t.pc] == Label(l) && v.value.pc == Head(j, t.pc)
  {
    hide Places, Output, Head, EligibleAt, MovedMem, RegsAlike, WellSigned, Once;
    FindLine(j, l);
  }

  lemma {:induction false} StartInside(j: Job, k: nat)
    requires Placing(j) && k <= |j.lines|
    ensures Start(j, k) <= |Output(j)|
  {
    hide RowsTo;
    RowsPrefix(j, k, |j.lines|);
  }

  lemma {:induction false} PlaceInside(j: Job, k: nat)
    requires Placing(j) && k <= |j.lines|
    ensures Places(j)[k] <= |Output(j)|
  {
    hide Output, Head, Start, Settle, Places, Placing;
    if k > 0 && j.lines[k - 1].Label? {
      PlaceBehind(j, k);
      RowPlace(j, k - 1);
      SettleInside(Output(j), Head(j, k - 1));
    } else {
      PlaceHere(j, k);
      StartInside(j, k);
      SettleInside(Output(j), Start(j, k));
    }
  }

  lemma {:induction false} SettleInside(prog: seq<Line>, i: nat)
    requires i <= |prog|
    ensures Settle(prog, i) <= |prog|
    decreases |prog| - i
  {
    if i < |prog| && prog[i].Label? {
      SettleInside(prog, i + 1);
    }
  }

  lemma {:induction false} GoToValueEffect(j: Job, v: Value, s: State, a: State)
    requires Placing(j) && Alike(Places(j), Free(j.c), s, a) && GoToValue(j.lines, v, s).Some?
    ensures var t, w := GoToValue(j.lines, v, s).value, GoToValue(Output(j), Moved(Places(j), v), a);
      && w.Some? && Alike(Places(j), Free(j.c), t, w.value)
      && t.pc <= |j.lines| && w.value.pc == Places(j)[t.pc]
  {
    hide Places, Output, MovedMem, RegsAlike, WellSigned;
    PlaceInside(j, v.at);
  }

  lemma {:induction false} JumpEffect(j: Job, ins: Instruction, s: State, a: State)
    requires Eligible(j) && Alike(Places(j), Free(j.c), s, a) && Perform(j.lines, ins, s).Some?
    requires ins.Branch? || (ins.BranchZero? && ins.r !in Free(j.c))
    ensures Effect(j, ins, s, a)
  {
    hide Places, Output, Eligible, Alike, GoTo, Head, Free;
    EligiblePlacing(j);
    if ins.BranchZero? {
      RegAlike(Places(j), Free(j.c), s, a, ins.r);
      NextAlike(Places(j), Free(j.c), s, a);
    }
    if JumpsTo(ins, s) {
      GoToEffect(j, ins.l, s, a);
    }
  }

  lemma {:induction false} CallEffect(j: Job, l: nat, s: State, a: State)
    requires Eligible(j) && Alike(Places(j), Free(j.c), s, a) && Perform(j.lines, Call(l), s).Some?
    requires s.pc < |j.lines| && j.lines[s.pc].Op? && j.lines[s.pc].ins.Call? && a.pc == Head(j, s.pc)
    ensures Effect(j, Call(l), s, a)
  {
    hide Places, Output, Eligible, Alike, GoTo, Head, Free, Settle;
    var back := Code(Settle(j.lines, s.pc + 1), true);
    EligiblePlacing(j);
    ReturnPlace(j, s.pc);
    SetAlike(Places(j), Free(j.c), s, a, LR, back);
    GoToEffect(j, l, Set(s, LR, back), Set(a, LR, Code(Settle(Output(j), a.pc + 1), true)));
  }

  lemma {:induction false} ReturnEffect(j: Job, ins: Instruction, s: State, a: State)
    requires Eligible(j) && Alike(Places(j), Free(j.c), s, a) && Perform(j.lines, ins, s).Some?
    requires Returns(ins) && Apart(Free(j.c), Tokens(ins))
    ensures Effect(j, ins, s, a)
  {
    hide Places, Output, EligibleAt, Once, WellSigned, Alike, GoToValue, Head, Free, Tokens, PerformLoadMany, LoadFrom;
    ApartTokens(Free(j.c), ins);
    match ins
    case BranchReg(r) =>
      RegAlike(Places(j), Free(j.c), s, a, r);
      GoToValueEffect(j, s.regs[r], s, a);
    case Pop(list, pc) => PopEffect(j, ins, false, SP, true, list, s, a);
    case LoadMany(db, base, wb, list, pc) =>
      ApartMany(Free(j.c), ins);
      PopEffect(j, ins, db, base, wb, list, s, a);
  }

  lemma {:induction false} PopEffect(j: Job, ins: Instruction, db: bool, base: Reg, wb: bool, list: seq<Reg>, s: State,
                                     a: State)
    requires Eligible(j) && Alike(Places(j), Free(j.c), s, a) && Perform(j.lines, ins, s).Some?
    requires ins == LoadMany(db, base, wb, list, true) || (ins == Pop(list, true) && !db && base == SP && wb)
    requires base !in Free(j.c)
    ensures Effect(j, ins, s, a)
  {
    hide Places, Output, EligibleAt, Once, WellSigned, Alike, GoToValue, Head, Free, PerformLoadMany, LoadFrom;
    var t0, a0 := LoadManyAlike(Places(j), Free(j.c), j.lines, Output(j), db, base, wb, list, true, s, a);
    var v := LoadFrom(s.mem, BlockStart(db, s.regs[base].n, BytesMoved(list, true)) + 4 * |list|, 4);
    GoToValueEffect(j, v.value, t0, a0);
  }

  /** The address of a label is taken. */
  lemma {:induction false} AddressEffect(j: Job, ins: Instruction, l: nat, rd: Reg, thumb: bool, s: State, a: State)
    requires Eligible(j) && Alike(Places(j), Free(j.c), s, a) && Perform(j.lines, ins, s).Some?
    requires ins == Literal(rd, Address(l, thumb)) || (ins == AddressOf(rd, l) && !thumb)
    requires Find(j.lines, l).Some? ==> Lone(j.lines, Find(j.lines, l).value)
    ensures Effect(j, ins, s, a)
  {
    hide Places, Output, EligibleAt, Once, WellSigned, Alike, Head, Free, Settle, Find;
    var k := Find(j.lines, l).value;
    FindLine(j, l);
    LabelPlace(j, k);
    var v := Code(k + 1, thumb);
    SetAlike(Places(j), Free(j.c), s, a, rd, v);
    NextAlike(Places(j), Free(j.c), Set(s, rd, v), Set(a, rd, Moved(Places(j), v)));
  }

  /** On alike states an instruction has the same effect in the source and in the output. */
  lemma {:induction false} SameEffect(j: Job, s: State, a: State)
    requires Eligible(j) && Alike(Places(j), Free(j.c), s, a)
    requires s.pc < |j.lines| && j.lines[s.pc].Op? && a.pc == Head(j, s.pc)
    requires Perform(j.lines, j.lines[s.pc].ins, s).Some?
    ensures Effect(j, j.lines[s.pc].ins, s, a)
    ensures var v := Perform(Output(j), j.lines[s.pc].ins, a).value;
      v.regs[j.c.gsr] == a.regs[j.c.gsr] && v.regs[j.c.d] == a.regs[j.c.d]
  {
    hide Perform, Places, Output, Once, WellSigned, Alike, Head, Find, Tokens, GoesOn, Returns;
    assert EligibleAt(j, s.pc);
    var ins := j.lines[s.pc].ins;
    ApartTokens(Free(j.c), ins);
    InstructionKinds(ins);
    if GoesOn(ins) {
      GoesOnAlike(Places(j), Free(j.c), j.lines, Output(j), ins, s, a);
    } else if Returns(ins) {
      ReturnEffect(j, ins, s, a);
    } else {
      match ins
      case Literal(rd, c) => AddressEffect(j, ins, c.l, rd, c.thumb, s, a);
      case AddressOf(rd, l) => AddressEffect(j, ins, l, rd, false, s, a);
      case Call(l) => CallEffect(j, l, s, a);
      case _ => JumpEffect(j, ins, s, a);
    }
    Untouched(Output(j), ins, a, j.c.gsr);
    Untouched(Output(j), ins, a, j.c.d);
  }

  lemma {:induction false} InstructionKinds(ins: Instruction)
    requires !ins.CallReg?
    ensures !GoesOn(ins) && !Returns(ins) ==>
      ins.AddressOf? || (ins.Literal? && ins.c.Address?) || ins.Call? || ins.Branch? || ins.BranchZero?
    ensures GoesOn(ins) ==> !Returns(ins) && !ins.Call? && !ins.Branch? && !ins.BranchZero?
    ensures Returns(ins) ==> !ins.Call? && !ins.Branch? && !ins.BranchZero?
  {
  }
}
