/** Instructions whose replacement does something else, and exactly when it does the same after all. */
module ReplacementLimits {
  import opened Arithmetic
  import opened Thumb
  import opened Replayable
  import opened RepeatedOperations
  import Residues
  import opened SpareOperations
  import opened ReplacementPass
  import opened ReplacementTolerance

  /** Instructions that go on, performed one after the other. */
  function Sequence(prog: seq<Line>, list: seq<Instruction>, o: State): Option<State> {
    if list == [] then Some(o)
    else match Perform(prog, list[0], o)
      case None => None
      case Some(t) => Sequence(prog, list[1..], t)
  }

  /** The instructions of some units, in the order they run. */
  function Performed(units: seq<Unit>): seq<Instruction> {
    if units == [] then [] else PerformedBy(units[0]) + Performed(units[1..])
  }

  function PerformedBy(u: Unit): seq<Instruction> {
    if !u.line.Op? then [] else if u.Once? then [u.line.ins] else [u.line.ins, u.line.ins]
  }

  /** The same registers but for the spare one, the same flags and the same memory. */
  ghost predicate Agrees(temp: Spare, a: State, b: State) {
    (forall r: Reg | r != temp :: b.regs[r] == a.regs[r]) && b.flags == a.flags && b.mem == a.mem
  }

  /** What an instruction becomes does what the instruction does. */
  ghost predicate Preserved(prog: seq<Line>, ins: Instruction, temp: Spare, o: State, k: nat) {
    var once, made := Perform(prog, ins, o), Sequence(prog, Performed(ExpandOp(ins, temp, k)), o);
    once.Some? && made.Some? && Agrees(temp, once.value, made.value)
  }

  function Two(prog: seq<Line>, a: Instruction, o: State): Option<State> {
    match Perform(prog, a, o)
    case None => None
    case Some(p) => Perform(prog, a, p)
  }

  lemma {:induction false} TwoDone(prog: seq<Line>, a: Instruction, o: State)
    ensures Sequence(prog, Performed([Twice(Do(a))]), o) == Two(prog, a, o)
  {
    hide Perform;
    assert Performed([Twice(Do(a))]) == [a, a];
    SequencePair(prog, a, [], o);
    assert [a, a] + [] == [a, a];
  }

  lemma {:induction false} SequencePair(prog: seq<Line>, a: Instruction, rest: seq<Instruction>, o: State)
    ensures Sequence(prog, [a, a] + rest, o) ==
      match Two(prog, a, o) case None => None case Some(q) => Sequence(prog, rest, q)
  {
    hide Perform;
    assert ([a, a] + rest)[1..] == [a] + rest && ([a] + rest)[1..] == rest;
  }

  lemma {:induction false} FourDone(prog: seq<Line>, a: Instruction, b: Instruction, o: State)
    ensures Sequence(prog, Performed([Twice(Do(a)), Twice(Do(b))]), o) ==
      match Two(prog, a, o) case None => None case Some(q) => Two(prog, b, q)
  {
    hide Perform, Two, Sequence;
    var units := [Twice(Do(a)), Twice(Do(b))];
    assert units[1..] == [Twice(Do(b))];
    assert Performed(units) == [a, a] + Performed([Twice(Do(b))]);
    SequencePair(prog, a, Performed([Twice(Do(b))]), o);
    if Two(prog, a, o).Some? {
      TwoDone(prog, b, Two(prog, a, o).value);
    }
  }

  lemma {:induction false} CopiedBack(prog: seq<Line>, rd: Reg, temp: Spare, q: State)
    requires rd != temp
    ensures Two(prog, Copy(rd, temp), q) == Some(Next(Next(Set(q, rd, q.regs[temp]))))
  {
    SetTwice(q.regs, rd, q.regs[temp], q.regs[temp]);
  }

  lemma {:induction false} SetTwice(regs: Registers, r: Reg, v: Value, w: Value)
    ensures regs[r := v][r := w] == regs[r := w]
  {
  }

  // ----- What they become -----

  /** Instructions that are neither calls nor transfers of several registers, and do not write back. */
  predicate Simple(ins: Instruction) {
    ins.Data? || ins.Short? || ins.Move? || ins.Insert? || ins.Compare? || ins.Test? ||
    (ins.Store? && ins.index.Offset?)
  }

  lemma {:induction false} CarryExpands(ins: Instruction, temp: Spare, k: nat)
    requires Simple(ins) && temp !in Tokens(ins) && Known(ins) && SetsFlags(ins) && MentionsCarry(ins)
    ensures Tokens(ins) != [] && Tokens(ins)[0] < PC && Tokens(ins)[0] != temp
    ensures ExpandOp(ins, temp, k) == [Twice(Do(WithoutFlags(WithFirst(ins, temp)))),
                                       Twice(Do(Move(Whole, true, Tokens(ins)[0], Plain(temp))))]
  {
    hide MentionsCarry, OperandTokens;
  }

  lemma {:induction false} SpareExpands(ins: Instruction, temp: Spare, k: nat)
    requires Simple(ins) && temp !in Tokens(ins) && Known(ins) && !(SetsFlags(ins) && MentionsCarry(ins))
    requires RepeatsFirst(ins)
    ensures Tokens(ins) != [] && Tokens(ins)[0] < PC && Tokens(ins)[0] != temp
    ensures ExpandOp(ins, temp, k) == [Twice(Do(WithFirst(ins, temp))), Twice(Do(Copy(Tokens(ins)[0], temp)))]
  {
    hide MentionsCarry, OperandTokens;
  }

  // ----- Two-operand instructions -----

  /** Written twice, a two-operand instruction is executed on its own result: what it leaves is right if and
      only if the operation moves it no further. */
  lemma {:induction false} TwoOperands(prog: seq<Line>, op: AluOp, s: bool, rd: Reg, y: Operand, temp: Spare, o: State,
                                       k: nat)
    requires var ins := Short(op, s, rd, y);
      Known(ins) && temp !in Tokens(ins) && !(s && MentionsCarry(ins)) && Perform(prog, ins, o).Some?
    requires Counted(op) && rd !in OperandTokens(y)
    ensures o.regs[rd].Num? && Second(o.regs, y, o.flags.c).Some?
    ensures Preserved(prog, Short(op, s, rd, y), temp, o, k) <==>
      Unmoved(op, s, o.regs[rd].n, Second(o.regs, y, o.flags.c).value, o.flags)
  {
    hide Second, Compute, Unmoved, Settled, OperandTokens;
    var ins := Short(op, s, rd, y);
    assert Tokens(ins)[1..] == OperandTokens(y);
    assert ExpandOp(ins, temp, k) == [Twice(Do(ins))];
    TwoDone(prog, ins, o);
    var x, n, f := o.regs[rd].n, Second(o.regs, y, o.flags.c).value, o.flags;
    var first := Compute(op, x, n, f);
    var p := Perform(prog, ins, o).value;
    SecondReread(o.regs, y, f.c, rd, Num(first.n), p.flags.c);
    var n' := Second(p.regs, y, p.flags.c).value;
    EorCarry(x, n, f);
    SettledIff(op, s, x, n, n', f);
    SettledIs(op, s, x, n, n', f);
    var q := Perform(prog, ins, p).value;
    assert q.regs == o.regs[rd := q.regs[rd]] && p.regs == o.regs[rd := p.regs[rd]];
  }

  /** For instance `add r0, #1`: the pass writes it twice, and the register comes out as two instead of one. */
  lemma {:induction false} AddedTwice(prog: seq<Line>, temp: Spare, o: State, k: nat)
    requires temp != 0 && o.regs[0] == Num(0)
    ensures var ins := Short(Add, false, 0, Imm(1));
      var once, made := Perform(prog, ins, o), Sequence(prog, Performed(ExpandOp(ins, temp, k)), o);
      once.Some? && once.value.regs[0] == Num(1) && made.Some? && made.value.regs[0] == Num(2) &&
      !Preserved(prog, ins, temp, o, k)
  {
    hide FlagsOf, Signed;
    var ins := Short(Add, false, 0, Imm(1));
    assert Tokens(ins) == [0];
    assert ExpandOp(ins, temp, k) == [Twice(Do(ins))];
    TwoDone(prog, ins, o);
  }

  lemma {:induction false} EorCarry(x: Word, n: Shift, f: Flags)
    ensures Compute(Eor, x, n, f).flags.c == n.carry
  {
    hide Bitwise;
  }

  lemma {:induction false} SettledIs(op: AluOp, s: bool, x: Word, y: Shift, y': Shift, f: Flags)
    ensures var first := Compute(op, x, y, f);
      var second := Compute(op, first.n, y', if s then first.flags else f);
      Settled(op, s, x, y, y', f) <==> second.n == first.n && (s ==> second.flags == first.flags)
  {
    hide Compute;
  }

  /** The result of an operation carried out twice on the spare register instead. */
  function OnSpare(op: AluOp, s: bool, y: Operand, temp: Spare, o: State): Option<(Value, Flags)> {
    match Second(o.regs, y, o.flags.c)
    case None => None
    case Some(n) =>
      match DataValue(op, s, o.regs[temp], n, o.flags)
      case None => None
      case Some(r) =>
        match Second(o.regs, y, r.1.c)
        case None => None
        case Some(n') => DataValue(op, s, r.0, n', r.1)
  }

  /** The replacement computes from the spare register: what comes out is a number and right exactly when the
      spare register holds a number that suits the operation. */
  lemma {:induction false} OnSpareIff(op: AluOp, s: bool, rd: Reg, y: Operand, temp: Spare, o: State)
    requires op != Sbc && op != Asr && !(s && (op == Adc || op == Ror))
    requires o.regs[rd].Num? && Second(o.regs, y, o.flags.c).Some?
    ensures var n := Second(o.regs, y, o.flags.c).value;
      var once := Compute(op, o.regs[rd].n, n, o.flags);
      OnSpare(op, s, y, temp, o) == Some((Num(once.n), if s then once.flags else o.flags)) <==>
        o.regs[temp].Num? && SpareSuits(op, s, o.regs[rd].n, o.regs[temp].n, n, o.flags)
  {
    hide Second, Compute, SpareSuits;
    var n := Second(o.regs, y, o.flags.c).value;
    if o.regs[temp].Num? {
      var x, t := o.regs[rd].n, o.regs[temp].n;
      var first := Compute(op, t, n, o.flags);
      var c := if s then first.flags.c else o.flags.c;
      SecondNumber(o.regs, y, o.flags.c, c);
      if Bits(op) {
        SecondStable(o.regs, y, o.flags.c, n);
        CarryOut(op, t, n, o.flags);
      }
      SpareSuitsIff(op, s, x, t, n, Second(o.regs, y, c).value, o.flags);
      SettledOnSpare(op, s, y, temp, o, x, n, Second(o.regs, y, c).value);
    }
  }

  lemma {:induction false} SettledOnSpare(op: AluOp, s: bool, y: Operand, temp: Spare, o: State, x: Word, n: Shift,
                                          n': Shift)
    requires o.regs[temp].Num? && Second(o.regs, y, o.flags.c) == Some(n)
    requires var first := Compute(op, o.regs[temp].n, n, o.flags);
      Second(o.regs, y, if s then first.flags.c else o.flags.c) == Some(n')
    ensures var once := Compute(op, x, n, o.flags);
      OnSpare(op, s, y, temp, o) == Some((Num(once.n), if s then once.flags else o.flags)) <==>
        SpareSettled(op, s, x, o.regs[temp].n, n, n', o.flags)
  {
    hide Second, Compute;
  }

  lemma {:induction false} CarryOut(op: AluOp, x: Word, n: Shift, f: Flags)
    requires Bits(op)
    ensures Compute(op, x, n, f).flags.c == n.carry
  {
    hide Bitwise;
  }

  /** When the register occurs again in the operand, the spare one takes its place as the first source too,
      although nothing loaded it: the result is right if and only if what the spare register happens to hold
      suits the operation. */
  lemma {:induction false} RepeatedOperand(prog: seq<Line>, op: AluOp, s: bool, rd: Reg, y: Operand, temp: Spare,
                                           o: State, k: nat)
    requires var ins := Short(op, s, rd, y);
      Known(ins) && temp !in Tokens(ins) && !(s && MentionsCarry(ins)) && Perform(prog, ins, o).Some?
    requires rd in OperandTokens(y)
    ensures o.regs[rd].Num? && Second(o.regs, y, o.flags.c).Some?
    ensures Preserved(prog, Short(op, s, rd, y), temp, o, k) <==>
      o.regs[temp].Num? &&
      SpareSuits(op, s, o.regs[rd].n, o.regs[temp].n, Second(o.regs, y, o.flags.c).value, o.flags)
  {
    hide Compute, SpareSuits, OnSpare;
    NamedNumber(o.regs, y, o.flags.c, rd);
    RepeatedOnSpare(prog, op, s, rd, y, temp, o, k);
    OnSpareIff(op, s, rd, y, temp, o);
  }

  lemma {:induction false} SelfSum(s: bool, x: Word, t: Word, c: bool, f: Flags)
    ensures SpareSuits(Add, s, x, t, Shift(x, c), f) <==> t == 0
  {
    hide AddWithCarry;
    SumResidue(t, x, false);
    Residues.ShiftedApart(t, 0, x);
    Residues.ResidueIs(0 + x, 0, x);
  }

  /** For instance, a register added to itself: the spare register must hold zero. */
  lemma {:induction false} AddedToItself(prog: seq<Line>, s: bool, rd: Reg, temp: Spare, o: State, k: nat)
    requires rd != temp && o.regs[rd].Num?
    ensures Preserved(prog, Short(Add, s, rd, Plain(rd)), temp, o, k) <==> o.regs[temp] == Num(0)
  {
    hide Preserved, SpareSuits, Compute;
    assert Tokens(Short(Add, s, rd, Plain(rd))) == [rd, rd];
    RepeatedOperand(prog, Add, s, rd, Plain(rd), temp, o, k);
    if o.regs[temp].Num? {
      SelfSum(s, o.regs[rd].n, o.regs[temp].n, Second(o.regs, Plain(rd), o.flags.c).value.carry, o.flags);
    }
  }

  lemma {:induction false} NamedNumber(regs: Registers, y: Operand, c: bool, r: Reg)
    requires r in OperandTokens(y) && Second(regs, y, c).Some?
    ensures regs[r].Num?
  {
  }

  lemma {:induction false} RepeatedOnSpare(prog: seq<Line>, op: AluOp, s: bool, rd: Reg, y: Operand, temp: Spare,
                                           o: State, k: nat)
    requires var ins := Short(op, s, rd, y);
      Known(ins) && temp !in Tokens(ins) && !(s && MentionsCarry(ins)) && Perform(prog, ins, o).Some?
    requires rd in OperandTokens(y)
    ensures var once := Perform(prog, Short(op, s, rd, y), o).value;
      Preserved(prog, Short(op, s, rd, y), temp, o, k) <==>
        OnSpare(op, s, y, temp, o) == Some((once.regs[rd], once.flags))
  {
    hide Second, DataValue, OperandTokens, ExpandOp, Two, MentionsCarry;
    var ins := Short(op, s, rd, y);
    var a, b := Short(op, s, temp, y), Copy(rd, temp);
    assert Tokens(ins)[1..] == OperandTokens(y);
    SpareExpands(ins, temp, k);
    FourDone(prog, a, b, o);
    SpareTwice(prog, op, s, y, temp, o);
    if Two(prog, a, o).Some? {
      CopiedBack(prog, rd, temp, Two(prog, a, o).value);
    }
    var once := Perform(prog, ins, o).value;
    assert once.regs == o.regs[rd := once.regs[rd]];
  }

  lemma {:induction false} SpareTwice(prog: seq<Line>, op: AluOp, s: bool, y: Operand, temp: Spare, o: State)
    requires temp !in OperandTokens(y)
    ensures var a := Short(op, s, temp, y);
      Two(prog, a, o) == match OnSpare(op, s, y, temp, o)
        case None => None
        case Some(r) => Some(Next(Next(Set(o, temp, r.0))).(flags := r.1))
  {
    hide Second, DataValue, OperandTokens;
    var a := Short(op, s, temp, y);
    if Perform(prog, a, o).Some? {
      var p := Perform(prog, a, o).value;
      SecondUntouched(o.regs, y, p.flags.c, temp, p.regs[temp]);
      assert p.regs == o.regs[temp := p.regs[temp]];
      if OnSpare(op, s, y, temp, o).Some? {
        SetTwice(o.regs, temp, p.regs[temp], OnSpare(op, s, y, temp, o).value.0);
      }
    }
  }

  // ----- Flags and the carry -----

  /** What MOVS leaves of the flags. */
  function MovedFlags(n: Word, f: Flags): Flags {
    Logical(n, f.c, f).flags
  }

  lemma {:induction false} MovedBack(prog: seq<Line>, rd: Reg, temp: Spare, q: State)
    requires rd != temp && q.regs[temp].Num?
    ensures var n := q.regs[temp].n;
      Two(prog, Move(Whole, true, rd, Plain(temp)), q) ==
        Some(Next(Next(Set(q, rd, Num(n)))).(flags := MovedFlags(n, q.flags)))
  {
    SetTwice(q.regs, rd, q.regs[temp], q.regs[temp]);
  }

  lemma {:induction false} AddressNotMoved(prog: seq<Line>, rd: Reg, temp: Spare, q: State)
    requires q.regs[temp].Code?
    ensures Two(prog, Move(Whole, true, rd, Plain(temp)), q) == None
  {
  }

  lemma {:induction false} NegativeAndZero(op: AluOp, x: Word, y: Shift, f: Flags)
    ensures var r := Compute(op, x, y, f); r.flags.n == (r.n >= SIGN_BIT) && r.flags.z == (r.n == 0)
    ensures var r := Compute(op, x, y, f); MovedFlags(r.n, f) == r.flags <==> r.flags.c == f.c && r.flags.v == f.v
  {
    hide Bitwise, ShiftWord, AddWithCarry;
  }

  /** A flag setting operation that mentions the carry becomes one that sets none and MOVS: the flags are
      right if and only if carry and overflow come out as they went in. */
  lemma {:induction false} CarryLost(prog: seq<Line>, op: AluOp, rd: Reg, rn: Reg, y: Operand, temp: Spare, o: State,
                                     k: nat)
    requires var ins := Data(op, true, rd, rn, y);
      Known(ins) && temp !in Tokens(ins) && MentionsCarry(ins) && Perform(prog, ins, o).Some?
    ensures var once := Perform(prog, Data(op, true, rd, rn, y), o).value;
      Preserved(prog, Data(op, true, rd, rn, y), temp, o, k) <==> once.flags.c == o.flags.c && once.flags.v == o.flags.v
  {
    hide Second, Compute, OperandTokens, MovedFlags, MentionsCarry, ExpandOp;
    var ins := Data(op, true, rd, rn, y);
    var a, b := Data(op, false, temp, rn, y), Move(Whole, true, rd, Plain(temp));
    assert Tokens(ins) == [rd, rn] + OperandTokens(y) && Tokens(ins)[0] == rd && Tokens(ins)[1] == rn;
    assert forall x | x in OperandTokens(y) :: x in Tokens(ins);
    CarryExpands(ins, temp, k);
    FourDone(prog, a, b, o);
    var x, n := o.regs[rn].n, Second(o.regs, y, o.flags.c).value;
    var r := Compute(op, x, n, o.flags);
    NegativeAndZero(op, x, n, o.flags);
    SecondUntouched(o.regs, y, o.flags.c, temp, Num(r.n));
    var q := Next(Next(Set(o, temp, Num(r.n))));
    assert Perform(prog, a, o) == Some(Next(Set(o, temp, Num(r.n))));
    assert Next(Set(Next(Set(o, temp, Num(r.n))), temp, Num(r.n))) == q;
    assert Two(prog, a, o) == Some(q);
    MovedBack(prog, rd, temp, q);
  }

  lemma {:induction false} MoveCarryLost(prog: seq<Line>, ext: Extension, rd: Reg, y: Operand, temp: Spare, o: State,
                                         k: nat)
    requires var ins := Move(ext, true, rd, y);
      Known(ins) && temp !in Tokens(ins) && MentionsCarry(ins) && Perform(prog, ins, o).Some?
    ensures var once := Perform(prog, Move(ext, true, rd, y), o).value;
      Preserved(prog, Move(ext, true, rd, y), temp, o, k) <==> once.flags.c == o.flags.c
  {
    hide Second, OperandTokens, Extend, ExpandOp, Perform;
    var ins := Move(ext, true, rd, y);
    assert Tokens(ins) == [rd] + OperandTokens(y) && Tokens(ins)[0] == rd;
    assert forall x | x in OperandTokens(y) :: x in Tokens(ins);
    CarryExpands(ins, temp, k);
    FourDone(prog, Move(ext, false, temp, y), Move(Whole, true, rd, Plain(temp)), o);
    MoveSets(prog, ext, rd, y, o);
    MovedTwice(prog, ext, y, temp, o);
    var v := Extend(ext, Second(o.regs, y, o.flags.c).value.n);
    MovedBack(prog, rd, temp, Next(Next(Set(o, temp, Num(v)))));
  }

  lemma {:induction false} MoveSets(prog: seq<Line>, ext: Extension, rd: Reg, y: Operand, o: State)
    requires Perform(prog, Move(ext, true, rd, y), o).Some?
    ensures var n := Second(o.regs, y, o.flags.c);
      && n.Some?
      && var r := Logical(Extend(ext, n.value.n), n.value.carry, o.flags);
         Perform(prog, Move(ext, true, rd, y), o) == Some(Next(Set(o, rd, Num(r.n)).(flags := r.flags)))
  {
    hide Second, Extend;
  }

  /** Moved to the spare register twice, without flags. */
  lemma {:induction false} MovedTwice(prog: seq<Line>, ext: Extension, y: Operand, temp: Spare, o: State)
    requires temp !in OperandTokens(y) && Second(o.regs, y, o.flags.c).Some? && MentionsCarry(Move(ext, true, temp, y))
    ensures var v := Num(Extend(ext, Second(o.regs, y, o.flags.c).value.n));
      Two(prog, Move(ext, false, temp, y), o) == Some(Next(Next(Set(o, temp, v))))
  {
    hide Second, OperandTokens, Extend;
    var a, v := Move(ext, false, temp, y), Num(Extend(ext, Second(o.regs, y, o.flags.c).value.n));
    SecondUntouched(o.regs, y, o.flags.c, temp, v);
    assert Perform(prog, a, o) == Some(Next(Set(o, temp, v)));
    assert Next(Set(Next(Set(o, temp, v)), temp, v)) == Next(Next(Set(o, temp, v)));
  }

  /** In the two-operand spelling the spare register is the first source as well. */
  lemma {:induction false} ShortCarryLost(prog: seq<Line>, op: AluOp, rd: Reg, y: Operand, temp: Spare, o: State,
                                          k: nat)
    requires var ins := Short(op, true, rd, y);
      Known(ins) && temp !in Tokens(ins) && MentionsCarry(ins) && Perform(prog, ins, o).Some?
    ensures o.regs[rd].Num? && Second(o.regs, y, o.flags.c).Some?
    ensures var once := Perform(prog, Short(op, true, rd, y), o).value;
      Preserved(prog, Short(op, true, rd, y), temp, o, k) <==>
        (o.regs[temp].Num? &&
         SpareSuits(op, false, o.regs[rd].n, o.regs[temp].n, Second(o.regs, y, o.flags.c).value, o.flags) &&
         once.flags.c == o.flags.c && once.flags.v == o.flags.v)
  {
    hide Compute, SpareSuits, OnSpare, Second, MentionsCarry;
    ShortOnSpare(prog, op, rd, y, temp, o, k);
    OnSpareIff(op, false, rd, y, temp, o);
  }

  lemma {:induction false} ShortOnSpare(prog: seq<Line>, op: AluOp, rd: Reg, y: Operand, temp: Spare, o: State,
                                          k: nat)
    requires var ins := Short(op, true, rd, y);
      Known(ins) && temp !in Tokens(ins) && MentionsCarry(ins) && Perform(prog, ins, o).Some?
    ensures var once := Perform(prog, Short(op, true, rd, y), o).value;
      Preserved(prog, Short(op, true, rd, y), temp, o, k) <==>
        OnSpare(op, false, y, temp, o) == Some((once.regs[rd], o.flags)) && once.flags.c == o.flags.c &&
          once.flags.v == o.flags.v
  {
    hide Second, Compute, OperandTokens, MovedFlags, MentionsCarry, OnSpare, ExpandOp, Two;
    var ins := Short(op, true, rd, y);
    var a, b := Short(op, false, temp, y), Move(Whole, true, rd, Plain(temp));
    assert Tokens(ins) == [rd] + OperandTokens(y) && Tokens(ins)[0] == rd;
    assert forall x | x in OperandTokens(y) :: x in Tokens(ins);
    CarryExpands(ins, temp, k);
    FourDone(prog, a, b, o);
    SpareTwice(prog, op, false, y, temp, o);
    SpareFlags(op, y, temp, o);
    var x, n := o.regs[rd].n, Second(o.regs, y, o.flags.c).value;
    NegativeAndZero(op, x, n, o.flags);
    var r := OnSpare(op, false, y, temp, o);
    var once := Perform(prog, ins, o).value;
    assert once.regs == o.regs[rd := Num(Compute(op, x, n, o.flags).n)] &&
      once.flags == Compute(op, x, n, o.flags).flags;
    if r.Some? {
      var q := Next(Next(Set(o, temp, r.value.0)));
      if r.value.0.Num? {
        MovedBack(prog, rd, temp, q);
        var made := Two(prog, b, q).value;
        assert made.regs[rd] == r.value.0 && made.flags == MovedFlags(r.value.0.n, o.flags) && made.mem == o.mem;
        assert forall g: Reg | g != temp && g != rd :: made.regs[g] == o.regs[g];
      } else {
        AddressNotMoved(prog, rd, temp, q);
      }
    }
  }

  lemma {:induction false} SpareFlags(op: AluOp, y: Operand, temp: Spare, o: State)
    ensures OnSpare(op, false, y, temp, o).Some? ==> OnSpare(op, false, y, temp, o).value.1 == o.flags
  {
    hide Second, Compute;
  }

  // ----- Other instructions whose first register occurs again -----

  /** A bit field inserted into the register it is taken from goes into the spare register instead: right if and
      only if that has the same bits outside the field. */
  lemma {:induction false} InsertedIntoItself(prog: seq<Line>, rd: Reg, lsb: nat, width: nat, temp: Spare, o: State,
                                              k: nat)
    requires rd != temp && o.regs[rd].Num?
    ensures Preserved(prog, Insert(rd, rd, lsb, width), temp, o, k) <==>
      o.regs[temp].Num? && AgreeOutside(o.regs[temp].n, o.regs[rd].n, lsb, width)
  {
    hide Pow2, Preserved, AgreeOutside;
    InsertedOnSpare(prog, rd, lsb, width, temp, o, k);
    if o.regs[temp].Num? {
      Pow2Word();
      InsertedAgain(o.regs[temp].n, o.regs[rd].n, lsb, width, 32);
      InsertedAgree(o.regs[temp].n, o.regs[rd].n, o.regs[rd].n, lsb, width, 32);
    }
  }

  lemma {:induction false} InsertedOnSpare(prog: seq<Line>, rd: Reg, lsb: nat, width: nat, temp: Spare, o: State,
                                           k: nat)
    requires rd != temp && o.regs[rd].Num?
    ensures Preserved(prog, Insert(rd, rd, lsb, width), temp, o, k) <==>
      o.regs[temp].Num? &&
      Thumb.Inserted(Thumb.Inserted(o.regs[temp].n, o.regs[rd].n, lsb, width), o.regs[rd].n, lsb, width) ==
        Thumb.Inserted(o.regs[rd].n, o.regs[rd].n, lsb, width)
  {
    hide InsertedBits, Thumb.Inserted, ExpandOp;
    var ins := Insert(rd, rd, lsb, width);
    var a, b := Insert(temp, rd, lsb, width), Copy(rd, temp);
    assert Tokens(ins) == [rd, rd] && Tokens(ins)[1..] == [rd];
    SpareExpands(ins, temp, k);
    FourDone(prog, a, b, o);
    if o.regs[temp].Num? {
      var v := Num(Thumb.Inserted(o.regs[temp].n, o.regs[rd].n, lsb, width));
      var w := Num(Thumb.Inserted(v.n, o.regs[rd].n, lsb, width));
      SetTwice(o.regs, temp, v, w);
      var q := Next(Next(Set(o, temp, w)));
      assert Two(prog, a, o) == Some(q);
      CopiedBack(prog, rd, temp, q);
      var made := Two(prog, b, q).value;
      assert made.regs[rd] == w && made.flags == o.flags && made.mem == o.mem;
      assert forall g: Reg | g != temp && g != rd :: made.regs[g] == o.regs[g];
    }
    var once := Perform(prog, ins, o).value;
    assert once.regs == o.regs[rd := Num(Thumb.Inserted(o.regs[rd].n, o.regs[rd].n, lsb, width))];
  }

  /** A comparison or test of a register with itself reads the spare register instead and then overwrites the
      register: right if and only if the spare register happens to hold the same. */
  lemma {:induction false} ComparedWithItself(prog: seq<Line>, ins: Instruction, temp: Spare, o: State, k: nat)
    requires (ins.Compare? || ins.Test?) && ins.rn in OperandTokens(ins.y) && temp !in Tokens(ins)
    requires Perform(prog, ins, o).Some?
    ensures Preserved(prog, ins, temp, o, k) <==> o.regs[temp] == o.regs[ins.rn]
  {
    hide Perform, OperandTokens, ExpandOp, Two, MentionsCarry;
    var rn, y := ins.rn, ins.y;
    var a, b := WithFirst(ins, temp), Copy(rn, temp);
    assert Tokens(ins) == [rn] + OperandTokens(y) && Tokens(ins)[1..] == OperandTokens(y);
    SpareExpands(ins, temp, k);
    FourDone(prog, a, b, o);
    OnlyTested(prog, ins, o);
    if Two(prog, a, o).Some? {
      var q := Two(prog, a, o).value;
      CopiedBack(prog, rn, temp, q);
      OnlyTestedTwice(prog, a, o);
    }
    if o.regs[temp] == o.regs[rn] {
      SameTest(prog, ins, temp, o);
      TestedTwice(prog, a, o);
    }
  }

  lemma {:induction false} OnlyTested(prog: seq<Line>, a: Instruction, o: State)
    requires (a.Compare? || a.Test?) && Perform(prog, a, o).Some?
    ensures var p := Perform(prog, a, o).value; p.regs == o.regs && p.mem == o.mem
  {
    hide Second, CompareFlags, BitwiseWord;
  }

  lemma {:induction false} OnlyTestedTwice(prog: seq<Line>, a: Instruction, o: State)
    requires (a.Compare? || a.Test?) && Two(prog, a, o).Some?
    ensures var p := Two(prog, a, o).value; p.regs == o.regs && p.mem == o.mem
  {
    hide Perform;
    OnlyTested(prog, a, o);
    OnlyTested(prog, a, Perform(prog, a, o).value);
  }

  lemma {:induction false} SameTest(prog: seq<Line>, ins: Instruction, temp: Spare, o: State)
    requires (ins.Compare? || ins.Test?) && o.regs[temp] == o.regs[ins.rn]
    ensures Perform(prog, WithFirst(ins, temp), o) == Perform(prog, ins, o)
  {
    hide Second, CompareFlags, BitwiseWord;
  }

  lemma {:induction false} TestedTwice(prog: seq<Line>, a: Instruction, o: State)
    requires (a.Compare? || a.Test?) && Perform(prog, a, o).Some?
    ensures Two(prog, a, o) == Some(Next(Perform(prog, a, o).value))
  {
    hide Second, CompareFlags;
    if a.Compare? {
      SecondNumber(o.regs, a.y, o.flags.c, Perform(prog, a, o).value.flags.c);
    } else {
      TestAgain(prog, a.rn, a.y, o, Perform(prog, a, o).value);
    }
  }

  /** Storing a register to an address formed from it stores the spare register, and loses the register. */
  lemma {:induction false} StoredThroughItself(prog: seq<Line>, size: Size, rt: Reg, base: Reg, y: Operand, temp: Spare,
                                               o: State, k: nat)
    requires var ins := Store(size, rt, base, Offset(y)); temp !in Tokens(ins) && Perform(prog, ins, o).Some?
    requires (rt == base || rt in OperandTokens(y))
    ensures Preserved(prog, Store(size, rt, base, Offset(y)), temp, o, k) <==> o.regs[temp] == o.regs[rt]
  {
    hide Perform, OperandTokens, ExpandOp, MentionsCarry;
    var ins := Store(size, rt, base, Offset(y));
    var a, b := Store(size, temp, base, Offset(y)), Copy(rt, temp);
    assert Tokens(ins) == [rt, base] + OperandTokens(y) && Tokens(ins)[1..] == [base] + OperandTokens(y);
    assert Tokens(ins)[1] == base;
    assert rt in [base] + OperandTokens(y);
    SpareExpands(ins, temp, k);
    FourDone(prog, a, b, o);
    OnlyStored(prog, size, rt, base, y, o);
    if Two(prog, a, o).Some? {
      StoredTwice(prog, size, temp, base, y, o);
      OnlyStored(prog, size, temp, base, y, o);
      CopiedBack(prog, rt, temp, Two(prog, a, o).value);
    }
    if o.regs[temp] == o.regs[rt] {
      SameStored(prog, size, rt, base, y, temp, o);
      StoredTwice(prog, size, temp, base, y, o);
    }
  }

  lemma {:induction false} OnlyStored(prog: seq<Line>, size: Size, rt: Reg, base: Reg, y: Operand, o: State)
    requires Perform(prog, Store(size, rt, base, Offset(y)), o).Some?
    ensures var p := Perform(prog, Store(size, rt, base, Offset(y)), o).value; p.regs == o.regs && p.flags == o.flags
  {
    hide Second, Cells;
  }

  lemma {:induction false} StoredTwice(prog: seq<Line>, size: Size, rt: Reg, base: Reg, y: Operand, o: State)
    requires Perform(prog, Store(size, rt, base, Offset(y)), o).Some?
    ensures var a := Store(size, rt, base, Offset(y)); Two(prog, a, o) == Some(Next(Perform(prog, a, o).value))
  {
    hide Second, Cells, StoreTo;
    StoreAgain(size, rt, base, Offset(y), o, Perform(prog, Store(size, rt, base, Offset(y)), o).value);
  }

  lemma {:induction false} SameStored(prog: seq<Line>, size: Size, rt: Reg, base: Reg, y: Operand, temp: Spare,
                                      o: State)
    requires o.regs[temp] == o.regs[rt]
    ensures Perform(prog, Store(size, temp, base, Offset(y)), o) == Perform(prog, Store(size, rt, base, Offset(y)), o)
  {
    hide Second, Cells;
  }

  // ----- All of them -----

  /** The remaining instructions the pass cannot replace are unpredictable anyway. */
  predicate Unpredictable(ins: Instruction) {
    match ins
    case Load(_, rt, base, index) => !index.Offset? && rt == base
    case LoadMany(_, base, wb, list, _) => wb && base in list
    case StoreMany(_, base, wb, list) => wb && base in list
    case Push(list) => SP in list
    case Pop(list, _) => SP in list
    case _ => false
  }

  lemma {:induction false} UnpredictableIsUndefined(prog: seq<Line>, ins: Instruction, o: State)
    requires Unpredictable(ins)
    ensures Perform(prog, ins, o) == None
  {
  }

  /** Exactly when the replacement of an instruction the pass should not replace does the same after all. */
  predicate Harmless(prog: seq<Line>, ins: Instruction, temp: Spare, o: State)
    requires Perform(prog, ins, o).Some?
  {
    var once := Perform(prog, ins, o).value;
    match ins
    case Short(op, s, rd, y) =>
      o.regs[rd].Num? && Second(o.regs, y, o.flags.c).Some? &&
      var x, n := o.regs[rd].n, Second(o.regs, y, o.flags.c).value;
      if LosesCarry(ins) then
        o.regs[temp].Num? && SpareSuits(op, false, x, o.regs[temp].n, n, o.flags) &&
        once.flags.c == o.flags.c && once.flags.v == o.flags.v
      else if rd in OperandTokens(y) then o.regs[temp].Num? && SpareSuits(op, s, x, o.regs[temp].n, n, o.flags)
      else Unmoved(op, s, x, n, o.flags)
    case Insert(rd, _, lsb, width) =>
      o.regs[temp].Num? && o.regs[rd].Num? && AgreeOutside(o.regs[temp].n, o.regs[rd].n, lsb, width)
    case Compare(rn, _) => o.regs[temp] == o.regs[rn]
    case Test(rn, _) => o.regs[temp] == o.regs[rn]
    case Store(_, rt, _, _) => o.regs[temp] == o.regs[rt]
    case _ => once.flags.c == o.flags.c && once.flags.v == o.flags.v
  }

  /** For every instruction that is not replaceable and has an effect: what it becomes has the same effect if
      and only if the condition of its kind holds. */
  lemma {:induction false} ReplacedExactly(prog: seq<Line>, ins: Instruction, temp: Spare, o: State, k: nat)
    requires !Replaceable(ins) && temp !in Tokens(ins) && Perform(prog, ins, o).Some?
    ensures Preserved(prog, ins, temp, o, k) <==> Harmless(prog, ins, temp, o)
  {
    hide Preserved, Perform, Tokens, SpareSuits, Unmoved, MentionsCarry, Known, Second, AgreeOutside;
    PassKnows(ins);
    if Unpredictable(ins) {
      UnpredictableIsUndefined(prog, ins, o);
      assert false;
    } else {
      match ins
      case Short(op, s, rd, y) =>
        if LosesCarry(ins) {
          ShortCarryLost(prog, op, rd, y, temp, o, k);
        } else if rd in OperandTokens(y) {
          RepeatedOperand(prog, op, s, rd, y, temp, o, k);
        } else {
          TwoOperands(prog, op, s, rd, y, temp, o, k);
        }
      case Data(op, s, rd, rn, y) => CarryLost(prog, op, rd, rn, y, temp, o, k);
      case Move(ext, s, rd, y) =>
        MoveCarryLost(prog, ext, rd, y, temp, o, k);
        MoveKeepsOverflow(prog, ext, rd, y, o);
      case Insert(rd, rn, lsb, width) =>
        InsertNumbers(prog, rd, rn, lsb, width, temp, o);
        InsertedIntoItself(prog, rd, lsb, width, temp, o, k);
      case Compare(_, _) => ComparedWithItself(prog, ins, temp, o, k);
      case Test(_, _) => ComparedWithItself(prog, ins, temp, o, k);
      case Store(size, rt, base, Offset(y)) => StoredThroughItself(prog, size, rt, base, y, temp, o, k);
      case _ => assert false;
    }
  }

  lemma {:induction false} MoveKeepsOverflow(prog: seq<Line>, ext: Extension, rd: Reg, y: Operand, o: State)
    requires Perform(prog, Move(ext, true, rd, y), o).Some?
    ensures Perform(prog, Move(ext, true, rd, y), o).value.flags.v == o.flags.v
  {
    hide Second, Extend;
  }

  lemma {:induction false} InsertNumbers(prog: seq<Line>, rd: Reg, rn: Reg, lsb: nat, width: nat, temp: Spare, o: State)
    requires Perform(prog, Insert(rd, rn, lsb, width), o).Some? && temp !in Tokens(Insert(rd, rn, lsb, width))
    ensures o.regs[rd].Num? && rd != temp
  {
    hide Thumb.Inserted;
    assert Tokens(Insert(rd, rn, lsb, width))[0] == rd;
  }
}
