/** The output of the replacement pass tolerates skipped instructions. */
module ReplacementTolerance {
  import opened Arithmetic
  import opened Thumb
  import opened Replayable
  import opened SkipTolerance
  import opened ReplacementPass
  import opened ReplacementLayout

  /** The instructions whose mnemonics are not on the script's list: `sbc`, `asr`, `mvn`, `blx` and `adr`. */
  predicate Unlisted(ins: Instruction) {
    match ins
    case Data(op, _, _, _, _) => op == Sbc || op == Asr
    case Short(op, _, _, _) => op == Sbc || op == Asr
    case Move(ext, _, _, _) => ext == Negated
    case CallReg(_) => true
    case AddressOf(_, _) => true
    case _ => false
  }

  /** The flag setting instructions whose line mentions `adc` or `ror`. */
  predicate LosesCarry(ins: Instruction) {
    match ins
    case Data(op, s, _, _, y) => s && (op == Adc || op == Ror || (y.Shifted? && y.kind == Rotate))
    case Short(op, s, _, y) => s && (op == Adc || op == Ror || (y.Shifted? && y.kind == Rotate))
    case Move(_, s, _, y) => s && y.Shifted? && y.kind == Rotate
    case _ => false
  }

  /** The instructions whose replacement does the same and may be executed twice.  Excluded are flag
      setting operations that mention `adc` or `ror` (the carry they produce is lost), two-operand
      operations that are not absorbed by a repetition, bit field inserts into the inserted register,
      and comparisons and stores whose first register occurs again (the spare register takes its place
      although it was never loaded).  A transfer with writeback that names its base in the list is
      unpredictable and left out as well. */
  predicate Replaceable(ins: Instruction) {
    (LosesCarry(ins) ==> Unlisted(ins)) &&
    match ins
    case Short(op, _, rd, y) => Unlisted(ins) || (Absorbs(op) && rd !in OperandTokens(y))
    case Insert(rd, rn, _, _) => rd != rn
    case Compare(rn, y) => rn !in OperandTokens(y)
    case Test(rn, y) => rn !in OperandTokens(y)
    case Store(_, rt, base, Offset(y)) => rt != base && rt !in OperandTokens(y)
    case Load(_, rt, base, index) => index.Offset? || rt != base
    case LoadMany(_, base, wb, list, _) => wb ==> base !in list
    case StoreMany(_, base, wb, list) => wb ==> base !in list
    case Push(list) => SP !in list
    case Pop(list, _) => SP !in list
    case _ => true
  }

  /** What the pass tests for is what is described here. */
  lemma {:induction false} PassKnows(ins: Instruction)
    ensures Known(ins) <==> !Unlisted(ins)
    ensures SetsFlags(ins) && MentionsCarry(ins) <==> LosesCarry(ins)
  {
  }

  predicate EligibleLine(st: Scan, line: Line, temp: Spare) {
    match line
    case Label(l) => l < 1000
    case Op(_, ins) =>
      && temp !in Tokens(ins)
      && (!st.ignore ==> Replaceable(ins))
      && (st.block.Some? && NextBlock(st.block.value).Some? ==> Falls(ins))
    case _ => true
  }

  predicate EligibleAt(source: seq<Line>, temp: Spare, k: nat)
    requires k < |source|
  {
    EligibleLine(ScanAt(source, temp, k), source[k], temp)
  }

  /** The programs the pass handles: well formed, not using the spare register, with labels below the
      fresh ones, replaceable instructions, and IT blocks that only branch at their end. */
  predicate Eligible(source: seq<Line>, temp: Spare) {
    Assembled(source, temp) && forall k | 0 <= k < |source| :: EligibleAt(source, temp, k)
  }

  predicate GoodUnit(u: Unit) {
    u.Twice? ==> u.line.Op? && Replays(u.line.ins)
  }

  predicate GoodUnits(units: seq<Unit>) {
    forall u | u in units :: GoodUnit(u)
  }

  lemma {:induction false} PairedSum(a: seq<Line>, ra: seq<Role>, b: seq<Line>, rb: seq<Role>)
    requires Paired(a, ra) && Paired(b, rb)
    ensures Paired(a + b, ra + rb)
  {
    forall p | 0 <= p < |a + b| && (ra + rb)[p] == Trailing ensures p > 0 && (ra + rb)[p - 1] == Leading {
      if p >= |a| {
        assert rb[p - |a|] == Trailing;
      }
    }
  }

  lemma {:induction false} PairedUnits(units: seq<Unit>)
    requires GoodUnits(units)
    ensures Paired(Flat(units), Roles(units))
  {
    if units != [] {
      assert GoodUnit(units[0]);
      PairedUnits(units[1..]);
      PairedSum(Lines(units[0]), RolesOf(units[0]), Flat(units[1..]), Roles(units[1..]));
    }
  }

  lemma {:induction false} ListTokensHold(list: seq<Reg>, pc: bool, r: Reg)
    requires r in list
    ensures r in ListTokens(list, pc)
  {
    var k :| 0 <= k < |list| && list[k] == r;
    assert ListTokens(list, pc)[k] == r;
  }

  lemma {:induction false} ManyTokens(ins: Instruction, temp: Spare)
    requires ins.LoadMany? || ins.StoreMany? || ins.Push? || ins.Pop?
    requires temp !in Tokens(ins)
    ensures temp !in ins.list
    ensures ins.LoadMany? || ins.StoreMany? ==> temp != ins.base
  {
    if temp in ins.list {
      ListTokensHold(ins.list, (ins.LoadMany? || ins.Pop?) && ins.pc, temp);
    }
  }

  lemma {:induction false} MoveBaseGood(op: AluOp, base: Reg, n: Word, temp: Spare)
    requires temp != base
    ensures GoodUnits(MoveBase(op, base, n, temp))
  {
  }

  lemma {:induction false} ManyGood(db: bool, base: Reg, wb: bool, list: seq<Reg>, pc: bool, temp: Spare)
    requires temp != base && temp !in list
    requires wb ==> base !in list
    ensures GoodUnits(ExpandLoadMany(db, base, wb, list, pc, temp))
    ensures GoodUnits(ExpandStoreMany(db, base, wb, list, temp))
  {
    MoveBaseGood(Towards(db), base, MovedBytes(list, pc), temp);
    MoveBaseGood(Towards(db), base, MovedBytes(list, false), temp);
  }

  lemma {:induction false} TokensOf(ins: Instruction, temp: Spare)
    requires temp !in Tokens(ins)
    ensures match ins
      case Data(_, _, rd, rn, y) => temp != rd && temp != rn && temp !in OperandTokens(y)
      case Short(_, _, rd, y) => temp != rd && temp !in OperandTokens(y)
      case Move(_, _, rd, y) => temp != rd && temp !in OperandTokens(y)
      case Insert(rd, rn, _, _) => temp != rd && temp != rn
      case Extract(_, rd, rn, _, _) => temp != rd && temp != rn
      case Compare(rn, y) => temp != rn && temp !in OperandTokens(y)
      case Test(rn, y) => temp != rn && temp !in OperandTokens(y)
      case Load(_, rt, base, index) => temp != rt && temp != base && temp !in IndexTokens(index)
      case Store(_, rt, base, index) => temp != rt && temp != base && temp !in IndexTokens(index)
      case Literal(rt, _) => temp != rt
      case BranchReg(r) => temp != r
      case CallReg(r) => temp != r
      case BranchZero(_, r, _) => temp != r
      case AddressOf(rd, _) => temp != rd
      case ReadFlags(rd) => temp != rd
      case WriteFlags(r) => temp != r
      case _ => true
  {
    var t := Tokens(ins);
    assert |t| > 0 ==> t[0] in t;
    assert |t| > 1 ==> t[1] in t;
    assert |t| > 2 ==> t[2] in t;
  }

  lemma {:induction false} KnownGood(ins: Instruction, temp: Spare)
    requires Replaceable(ins) && temp !in Tokens(ins)
    requires !(ins.LoadMany? || ins.StoreMany? || ins.Push? || ins.Pop? || ins.Call? || ins.CallReg?)
    requires (ins.Load? || ins.Store?) ==> ins.index.Offset?
    ensures GoodUnits(ExpandKnown(ins, temp))
  {
    hide Rotated;
    TokensOf(ins, temp);
    var t := Tokens(ins);
    assert |t| > 1 ==> t[1..] == [t[1]] + t[2..];
  }

  /** Whatever is written twice may be executed twice. */
  lemma {:induction false} ExpandGood(ins: Instruction, temp: Spare, n: nat)
    requires Replaceable(ins) && temp !in Tokens(ins)
    ensures GoodUnits(ExpandOp(ins, temp, n))
  {
    hide ExpandKnown, ExpandLoadMany, ExpandStoreMany, MoveBase;
    match ins
    case Call(l) =>
    case CallReg(_) => CallRegSingle(ins, temp);
    case LoadMany(db, base, wb, list, pc) => ManyTokens(ins, temp); ManyGood(db, base, wb, list, pc, temp);
    case StoreMany(db, base, wb, list) => ManyTokens(ins, temp); ManyGood(db, base, wb, list, false, temp);
    case Push(list) => ManyTokens(ins, temp); ManyGood(true, SP, true, list, false, temp);
    case Pop(list, pc) => ManyTokens(ins, temp); ManyGood(false, SP, true, list, pc, temp);
    case Load(_, _, base, index) => TransferGood(ins, temp);
    case Store(_, _, base, index) => TransferGood(ins, temp);
    case _ => KnownGood(ins, temp);
  }

  lemma {:induction false} CallRegSingle(ins: Instruction, temp: Spare)
    requires ins.CallReg?
    ensures GoodUnits(ExpandKnown(ins, temp))
  {
  }

  lemma {:induction false} TransferGood(ins: Instruction, temp: Spare)
    requires Replaceable(ins) && temp !in Tokens(ins) && (ins.Load? || ins.Store?)
    ensures GoodUnits(ExpandOp(ins, temp, 0))
    ensures forall n: nat :: ExpandOp(ins, temp, n) == ExpandOp(ins, temp, 0)
  {
    hide ExpandKnown, MoveBase;
    TokensOf(ins, temp);
    if ins.index.Offset? {
      KnownGood(ins, temp);
    } else {
      MoveBaseGood(Add, ins.base, ins.index.n, temp);
    }
  }

  lemma {:induction false} GoodSum(a: seq<Unit>, b: seq<Unit>)
    requires GoodUnits(a) && GoodUnits(b)
    ensures GoodUnits(a + b)
  {
  }

  lemma {:induction false} EmitGood(st: Scan, line: Line, temp: Spare)
    requires Fits(st, line) && EligibleLine(st, line, temp)
    requires st.block.Some? ==> !st.ignore
    ensures GoodUnits(Emit(st, line, temp))
  {
    hide ExpandOp, Replaceable, Known;
    if line.Op? && !st.ignore {
      ExpandGood(line.ins, temp, st.n);
    }
  }

  lemma {:induction false} MadeGood(source: seq<Line>, temp: Spare, k: nat)
    requires Eligible(source, temp) && k <= |source|
    ensures GoodUnits(Made(source, temp, k))
  {
    hide Emit, EligibleLine, GoodUnits;
    if k > 0 {
      MadeGood(source, temp, k - 1);
      ScanState(source, temp, k - 1);
      assert FitsAt(source, temp, k - 1) && EligibleAt(source, temp, k - 1);
      EmitGood(ScanAt(source, temp, k - 1), source[k - 1], temp);
      GoodSum(Made(source, temp, k - 1), Emit(ScanAt(source, temp, k - 1), source[k - 1], temp));
    } else {
      NoneGood();
    }
  }

  lemma {:induction false} NoneGood()
    ensures GoodUnits([])
  {
  }

  function Output(source: seq<Line>, temp: Spare): seq<Line> {
    Flat(Made(source, temp, |source|))
  }

  function OutputRoles(source: seq<Line>, temp: Spare): (r: seq<Role>)
    ensures |r| == |Output(source, temp)|
  {
    Roles(Made(source, temp, |source|))
  }

  /** In the output of the pass every instruction written twice is a pair whose second half changes
      nothing, so all that is proved about paired programs holds of it. */
  lemma {:induction false} OutputPaired(source: seq<Line>, temp: Spare)
    requires Eligible(source, temp)
    ensures Paired(Output(source, temp), OutputRoles(source, temp))
  {
    hide GoodUnits, Eligible;
    MadeGood(source, temp, |source|);
    PairedUnits(Made(source, temp, |source|));
  }
}
