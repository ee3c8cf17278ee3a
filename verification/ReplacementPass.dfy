/** The pass that replaces instructions by pairs of instructions that may be executed twice.  First what
    becomes of an instruction, as units that are written once or twice; then the rewriting of a whole file as
    a function; last the loop that overwrites and inserts lines of a list while its index moves, which
    computes that function. */
module ReplacementPass {
  import opened Arithmetic
  import opened Thumb
  import opened SkipTolerance

  /** What the pass writes: a line that stands alone, or an instruction written twice. */
  datatype Unit = Once(line: Line) | Twice(line: Line)

  function Lines(u: Unit): seq<Line> {
    match u
    case Once(line) => [line]
    case Twice(line) => [line, line]
  }

  function RolesOf(u: Unit): seq<Role> {
    match u
    case Once(_) => [Alone]
    case Twice(_) => [Leading, Trailing]
  }

  function Flat(units: seq<Unit>): seq<Line> {
    if units == [] then [] else Lines(units[0]) + Flat(units[1..])
  }

  function Roles(units: seq<Unit>): (r: seq<Role>)
    ensures |r| == |Flat(units)|
  {
    if units == [] then [] else RolesOf(units[0]) + Roles(units[1..])
  }

  /** The register the program leaves to the pass, one of r0 to r12. */
  type Spare = r: int | 0 <= r < 13

  const FIRST_LABEL := 1000

  /** The conditions among the suffixes the pass knows; under the others a branch stays single. */
  predicate KnownCondition(c: Condition) {
    c in {EQ, NE, CS, CC, HI, LS, GT}
  }

  /** The operations the pass takes to be repeatable. */
  predicate Known(ins: Instruction) {
    match ins
    case Data(op, _, _, _, _) => op != Sbc && op != Asr
    case Short(op, _, _, _) => op != Sbc && op != Asr
    case Move(ext, _, _, _) => ext != Negated
    case CallReg(_) => false
    case AddressOf(_, _) => false
    case _ => true
  }

  function Do(ins: Instruction): Line {
    Op(None, ins)
  }

  function SetsFlags(ins: Instruction): bool {
    match ins
    case Data(_, s, _, _, _) => s
    case Short(_, s, _, _) => s
    case Move(_, s, _, _) => s
    case _ => false
  }

  predicate Rotated(y: Operand) {
    y.Shifted? && y.kind == Rotate
  }

  /** The line mentions `ror` or `adc`. */
  predicate MentionsCarry(ins: Instruction) {
    match ins
    case Data(op, _, _, _, y) => op == Adc || op == Ror || Rotated(y)
    case Short(op, _, _, y) => op == Adc || op == Ror || Rotated(y)
    case Move(_, _, _, y) => Rotated(y)
    case Compare(_, y) => Rotated(y)
    case Test(_, y) => Rotated(y)
    case Load(_, _, _, Offset(y)) => Rotated(y)
    case Store(_, _, _, Offset(y)) => Rotated(y)
    case _ => false
  }

  function WithoutFlags(ins: Instruction): Instruction {
    match ins
    case Data(op, _, rd, rn, y) => Data(op, false, rd, rn, y)
    case Short(op, _, rd, y) => Short(op, false, rd, y)
    case Move(ext, _, rd, y) => Move(ext, false, rd, y)
    case _ => ins
  }

  /** The first register of the line replaced by another one. */
  function WithFirst(ins: Instruction, r: Reg): Instruction {
    match ins
    case Data(op, s, _, rn, y) => Data(op, s, r, rn, y)
    case Short(op, s, _, y) => Short(op, s, r, y)
    case Move(ext, s, _, y) => Move(ext, s, r, y)
    case Insert(_, rn, lsb, width) => Insert(r, rn, lsb, width)
    case Extract(signed, _, rn, lsb, width) => Extract(signed, r, rn, lsb, width)
    case Compare(_, y) => Compare(r, y)
    case Test(_, y) => Test(r, y)
    case Load(size, _, base, index) => Load(size, r, base, index)
    case Store(size, _, base, index) => Store(size, r, base, index)
    case LoadMany(db, _, wb, list, pc) => LoadMany(db, r, wb, list, pc)
    case StoreMany(db, _, wb, list) => StoreMany(db, r, wb, list)
    case _ => ins
  }

  function Copy(rd: Reg, r: Reg): Instruction {
    Move(Whole, false, rd, Plain(r))
  }

  /** The first register occurs again in the line. */
  predicate RepeatsFirst(ins: Instruction) {
    var regs := Tokens(ins);
    |regs| > 1 && regs[0] in regs[1..]
  }

  function ExpandKnown(ins: Instruction, temp: Spare): seq<Unit> {
    if !Known(ins) then [Once(Do(ins))]
    else if SetsFlags(ins) && MentionsCarry(ins) then
      [Twice(Do(WithoutFlags(WithFirst(ins, temp)))), Twice(Do(Move(Whole, true, Tokens(ins)[0], Plain(temp))))]
    else if RepeatsFirst(ins) && Tokens(ins)[0] < PC then
      [Twice(Do(WithFirst(ins, temp))), Twice(Do(Copy(Tokens(ins)[0], temp)))]
    else [Twice(Do(ins))]
  }

  /** The base register moved by a number of bytes, by way of the spare register. */
  function MoveBase(op: AluOp, base: Reg, n: Word, temp: Spare): seq<Unit> {
    [Twice(Do(Data(op, false, temp, base, Imm(n)))), Twice(Do(Copy(base, temp)))]
  }

  function WithoutWriteback(index: Index): Index {
    match index
    case Offset(_) => index
    case Pre(n) => Offset(Imm(n))
    case Post(_) => Offset(Imm(0))
  }

  function MovedBytes(list: seq<Reg>, pc: bool): Word {
    BytesMoved(list, pc) % WORD_LIMIT
  }

  function Towards(db: bool): AluOp {
    if db then Sub else Add
  }

  function ExpandLoadMany(db: bool, base: Reg, wb: bool, list: seq<Reg>, pc: bool, temp: Spare): seq<Unit> {
    var n := MovedBytes(list, pc);
    if wb && !pc then
      [Twice(Do(LoadMany(db, base, false, list, pc)))] + MoveBase(Towards(db), base, n, temp)
    else if wb then
      MoveBase(Towards(db), base, n, temp) +
      [Twice(Do(Data(Towards(!db), false, temp, base, Imm(n)))), Twice(Do(LoadMany(db, temp, false, list, pc)))]
    else if base in list then
      [Twice(Do(Copy(temp, base))), Twice(Do(LoadMany(db, temp, wb, list, pc)))]
    else [Twice(Do(LoadMany(db, base, wb, list, pc)))]
  }

  function ExpandStoreMany(db: bool, base: Reg, wb: bool, list: seq<Reg>, temp: Spare): seq<Unit> {
    if wb then
      [Twice(Do(StoreMany(db, base, false, list)))] + MoveBase(Towards(db), base, MovedBytes(list, false), temp)
    else if base in list then
      [Twice(Do(Copy(temp, base))), Twice(Do(StoreMany(db, temp, wb, list)))]
    else [Twice(Do(StoreMany(db, base, wb, list)))]
  }

  function ExpandCall(l: nat, back: nat): seq<Unit> {
    [Twice(Do(AddressOf(LR, back))), Twice(Do(Short(Orr, false, LR, Imm(1)))), Twice(Do(Branch(l))), Once(Label(back))]
  }

  /** What becomes of one unconditional instruction; `n` is the next fresh label. */
  function ExpandOp(ins: Instruction, temp: Spare, n: nat): seq<Unit> {
    if temp in Tokens(ins) then [Twice(Do(ins))]
    else match ins
      case Call(l) => ExpandCall(l, n)
      case Load(size, rt, base, index) =>
        if index.Offset? then ExpandKnown(ins, temp)
        else [Twice(Do(Load(size, rt, base, WithoutWriteback(index))))] + MoveBase(Add, base, index.n, temp)
      case Store(size, rt, base, index) =>
        if index.Offset? then ExpandKnown(ins, temp)
        else [Twice(Do(Store(size, rt, base, WithoutWriteback(index))))] + MoveBase(Add, base, index.n, temp)
      case Push(list) => ExpandStoreMany(true, SP, true, list, temp)
      case Pop(list, pc) => ExpandLoadMany(false, SP, true, list, pc, temp)
      case LoadMany(db, base, wb, list, pc) => ExpandLoadMany(db, base, wb, list, pc, temp)
      case StoreMany(db, base, wb, list) => ExpandStoreMany(db, base, wb, list, temp)
      case _ => ExpandKnown(ins, temp)
  }

  /** Mnemonics without a suffix of their own: with a known condition behind them they stay known. */
  predicate BareMnemonic(ins: Instruction) {
    match ins
    case Move(ext, s, _, _) => ext == Whole && !s
    case Load(size, _, _, index) => size == FourBytes && index.Offset?
    case Store(size, _, _, index) => size == FourBytes && index.Offset?
    case Call(_) => false
    case Push(_) => false
    case Pop(_, _) => false
    case LoadMany(_, _, _, _, _) => false
    case StoreMany(_, _, _, _) => false
    case _ => Known(ins) && !SetsFlags(ins)
  }

  /** A conditional instruction that no lowered block covers: the copy from the spare register does not
      get the condition. */
  function ExpandConditional(c: Condition, ins: Instruction, temp: Spare): seq<Unit> {
    var line := Op(Some(c), ins);
    if temp in Tokens(ins) then [Twice(line)]
    else if !KnownCondition(c) || !BareMnemonic(ins) then [Once(line)]
    else if RepeatsFirst(ins) && Tokens(ins)[0] < PC then
      [Twice(Op(Some(c), WithFirst(ins, temp))), Twice(Do(Copy(Tokens(ins)[0], temp)))]
    else [Twice(line)]
  }

  /** What becomes of a line other than an IT instruction. */
  function Expand(line: Line, temp: Spare, ignore: bool, n: nat): seq<Unit> {
    match line
    case Op(cond, ins) =>
      if ignore then [Once(line)]
      else if cond.None? then ExpandOp(ins, temp, n)
      else ExpandConditional(cond.value, ins, temp)
    case _ => [Once(line)]
  }

  function Labels(line: Line, temp: Spare, ignore: bool): nat {
    if !ignore && line.Op? && line.cond.None? && line.ins.Call? then 1 else 0
  }

  function Ignoring(line: Line, ignore: bool): bool {
    match line
    case IgnoreStart => true
    case IgnoreEnd => false
    case _ => ignore
  }

  // ----- IT blocks -----

  function Strip(line: Line, c: Condition): Line {
    if line.Op? && line.cond == Some(c) then Do(line.ins) else line
  }

  function StripAll(lines: seq<Line>, c: Condition): (r: seq<Line>)
    ensures |r| == |lines|
  {
    seq(|lines|, i requires 0 <= i < |lines| => Strip(lines[i], c))
  }

  /** An open IT block: the lines it still covers, its condition and its two labels. */
  datatype Block = Block(thens: nat, elses: nat, test: Condition, l: nat)

  function AfterThens(b: Block): seq<Line> {
    if b.elses > 0 then [Do(Branch(b.l + 1)), Label(b.l)] else [Label(b.l)]
  }

  function AfterElses(b: Block): seq<Line> {
    if b.elses > 0 then [Label(b.l + 1)] else []
  }

  /** The lines of a block and those behind it, conditions stripped and labels put in. */
  function Unblocked(b: Block, rest: seq<Line>): seq<Line>
    requires b.thens + b.elses <= |rest|
  {
    StripAll(rest[..b.thens], b.test) + AfterThens(b) +
    StripAll(rest[b.thens..b.thens + b.elses], Inverse(b.test)) + AfterElses(b) + rest[b.thens + b.elses..]
  }

  function Weight(line: Line): nat {
    match line
    case It(_, _, _) => 4
    case Op(_, ins) =>
      if ins.Push? || ins.Pop? || (ins.Load? && !ins.index.Offset?) || (ins.Store? && !ins.index.Offset?) then 2 else 1
    case _ => 1
  }

  function Work(lines: seq<Line>): nat {
    if lines == [] then 0 else Weight(lines[0]) + Work(lines[1..])
  }

  lemma {:induction false} WorkSum(a: seq<Line>, b: seq<Line>)
    ensures Work(a + b) == Work(a) + Work(b)
  {
    if a == [] {
      assert a + b == b;
    } else {
      assert (a + b)[1..] == a[1..] + b;
      WorkSum(a[1..], b);
    }
  }

  lemma {:induction false} WorkStripped(lines: seq<Line>, c: Condition)
    ensures Work(StripAll(lines, c)) == Work(lines)
  {
    if lines != [] {
      assert StripAll(lines, c)[1..] == StripAll(lines[1..], c);
      WorkStripped(lines[1..], c);
    }
  }

  lemma {:induction false} WorkUnblocked(b: Block, rest: seq<Line>)
    requires b.thens + b.elses <= |rest|
    ensures Work(Unblocked(b, rest)) <= Work(rest) + 3
  {
    hide Work;
    var t, e := b.thens, b.elses;
    var thens, elses := StripAll(rest[..t], b.test), StripAll(rest[t..t + e], Inverse(b.test));
    WorkStripped(rest[t..t + e], Inverse(b.test));
    WorkStripped(rest[..t], b.test);
    WorkSum(thens + AfterThens(b) + elses + AfterElses(b), rest[t + e..]);
    WorkSum(thens + AfterThens(b) + elses, AfterElses(b));
    WorkSum(thens + AfterThens(b), elses);
    WorkSum(thens, AfterThens(b));
    assert rest == rest[..t] + rest[t..t + e] + rest[t + e..];
    WorkSum(rest[..t] + rest[t..t + e], rest[t + e..]);
    WorkSum(rest[..t], rest[t..t + e]);
    LightWork(AfterThens(b));
    LightWork(AfterElses(b));
  }

  lemma {:induction false} LightWork(lines: seq<Line>)
    requires forall l | l in lines :: Weight(l) == 1
    ensures Work(lines) == |lines|
  {
    if lines != [] {
      LightWork(lines[1..]);
    }
  }

  function Prepend(units: seq<Unit>, r: Option<seq<Unit>>): Option<seq<Unit>> {
    match r
    case None => None
    case Some(rest) => Some(units + rest)
  }

  /** The pass, line by line; none when an IT block runs past the end of the file. */
  function Compile(lines: seq<Line>, temp: Spare, ignore: bool, n: nat): Option<seq<Unit>>
    decreases Work(lines)
  {
    if lines == [] then Some([])
    else
      var rest := lines[1..];
      match lines[0]
      case It(thens, elses, test) =>
        if ignore then Prepend([Once(lines[0])], Compile(rest, temp, ignore, n))
        else if thens + elses > |rest| then None
        else
          WorkUnblocked(Block(thens, elses, test, n), rest);
          Prepend([Once(Op(Some(Inverse(test)), Branch(n)))],
                  Compile(Unblocked(Block(thens, elses, test, n), rest), temp, ignore, n + 2))
      case _ =>
        Prepend(Expand(lines[0], temp, ignore, n),
                Compile(rest, temp, Ignoring(lines[0], ignore), n + Labels(lines[0], temp, ignore)))
  }

  // ----- The pass in place -----

  lemma {:induction false} FlatSum(a: seq<Unit>, b: seq<Unit>)
    ensures Flat(a + b) == Flat(a) + Flat(b)
    ensures Roles(a + b) == Roles(a) + Roles(b)
  {
    hide Lines, RolesOf;
    if a == [] {
      assert a + b == b;
    } else {
      var all := a + b;
      assert all[0] == a[0] && all[1..] == a[1..] + b;
      FlatSum(a[1..], b);
      assert Flat(all) == Lines(a[0]) + Flat(all[1..]);
      assert Roles(all) == RolesOf(a[0]) + Roles(all[1..]);
    }
  }

  lemma {:induction false} PrependTwice(a: seq<Unit>, b: seq<Unit>, r: Option<seq<Unit>>)
    ensures Prepend(a, Prepend(b, r)) == Prepend(a + b, r)
  {
    if r.Some? {
      assert a + (b + r.value) == a + b + r.value;
    }
  }

  /** lines[i] = new[0] followed by inserting the rest of new behind it. */
  function Replaced(lines: seq<Line>, i: nat, new_: seq<Line>): seq<Line>
    requires i < |lines|
  {
    lines[..i] + new_ + lines[i + 1..]
  }

  function Inserted(lines: seq<Line>, i: nat, line: Line): seq<Line>
    requires i <= |lines|
  {
    lines[..i] + [line] + lines[i..]
  }

  /** Strips a condition from a range of lines. */
  method StripRange(lines: seq<Line>, from: nat, to: nat, c: Condition) returns (r: seq<Line>)
    requires from <= to <= |lines|
    ensures r == lines[..from] + StripAll(lines[from..to], c) + lines[to..]
  {
    r := lines;
    var j := from;
    while j < to
      invariant from <= j <= to && |r| == |lines|
      invariant forall k | 0 <= k < |r| :: r[k] == if from <= k < j then Strip(lines[k], c) else lines[k]
    {
      r := r[j := Strip(r[j], c)];
      j := j + 1;
    }
  }

  /** Strips the conditions of a block whose lines start at `at`. */
  method StripBlock(input: seq<Line>, at: nat, thens: nat, elses: nat, test: Condition) returns (lines: seq<Line>)
    requires at + thens + elses <= |input|
    ensures lines == input[..at] + StripAll(input[at..at + thens], test) +
      StripAll(input[at + thens..at + thens + elses], Inverse(test)) + input[at + thens + elses..]
  {
    ghost var a := StripAll(input[at..at + thens], test);
    lines := StripRange(input, at, at + thens, test);
    assert lines[..at + thens] == input[..at] + a;
    assert lines[at + thens..at + thens + elses] == input[at + thens..at + thens + elses];
    assert lines[at + thens + elses..] == input[at + thens + elses..];
    lines := StripRange(lines, at + thens, at + thens + elses, Inverse(test));
  }

  lemma {:induction false} InsertedBetween(a: seq<Line>, b: seq<Line>, line: Line)
    ensures Inserted(a + b, |a|, line) == (a + [line]) + b
  {
    assert (a + b)[..|a|] == a && (a + b)[|a|..] == b;
  }

  lemma {:induction false} ReplacedBetween(a: seq<Line>, b: seq<Line>, line: Line)
    requires b != []
    ensures (a + b)[|a| := line] == (a + [line]) + b[1..]
  {
  }

  /** Inserts the jump and the labels around the lines `b` of a block, behind `front`. */
  method InsertLabels(input: seq<Line>, at: nat, block: Block, ghost front: seq<Line>, ghost b: seq<Line>,
                      ghost tail: seq<Line>)
    returns (lines: seq<Line>)
    requires input == front + (b + tail) && |front| == at && |b| == block.elses
    ensures lines == front + AfterThens(block) + b + AfterElses(block) + tail
  {
    hide Inserted;
    lines := input;
    if block.elses == 0 {
      InsertedBetween(front, b + tail, Label(block.l));
      lines := Inserted(lines, at, Label(block.l));
    } else {
      ghost var over := front + [Do(Branch(block.l + 1))];
      ghost var open := over + [Label(block.l)];
      InsertedBetween(front, b + tail, Do(Branch(block.l + 1)));
      lines := Inserted(lines, at, Do(Branch(block.l + 1)));
      InsertedBetween(over, b + tail, Label(block.l));
      lines := Inserted(lines, at + 1, Label(block.l));
      assert lines == (open + b) + tail;
      InsertedBetween(open + b, tail, Label(block.l + 1));
      lines := Inserted(lines, at + 2 + block.elses, Label(block.l + 1));
      assert open == front + AfterThens(block);
    }
  }

  /** Lowers the IT block that starts at line i: the branch over it, its lines stripped, its labels. */
  method LowerBlock(input: seq<Line>, i: nat, thens: nat, elses: nat, test: Condition, n: nat)
    returns (lines: seq<Line>)
    requires i < |input| && i + 1 + thens + elses <= |input|
    ensures lines == input[..i] + [Op(Some(Inverse(test)), Branch(n))] +
      Unblocked(Block(thens, elses, test, n), input[i + 1..])
  {
    hide StripAll, AfterThens, AfterElses, Unblocked;
    ghost var a := StripAll(input[i + 1..i + 1 + thens], test);
    ghost var b := StripAll(input[i + 1 + thens..i + 1 + thens + elses], Inverse(test));
    ghost var tail := input[i + 1 + thens + elses..];
    lines := StripBlock(input, i + 1, thens, elses, test);
    OpenBlock(input, i, a, b, tail);
    ReplacedBetween(input[..i], [input[i]] + (a + (b + tail)), Op(Some(Inverse(test)), Branch(n)));
    lines := lines[i := Op(Some(Inverse(test)), Branch(n))];
    ghost var front := input[..i] + [Op(Some(Inverse(test)), Branch(n))];
    Associates(front, a, b + tail);
    lines := InsertLabels(lines, i + thens + 1, Block(thens, elses, test, n), front + a, b, tail);
    BlockLayout(input, i, thens, elses, test, n, front);
  }

  lemma {:induction false} Associates(a: seq<Line>, b: seq<Line>, c: seq<Line>)
    ensures a + b + c == a + (b + c)
  {
  }

  lemma {:induction false} Together(front: seq<Line>, a: seq<Line>, b: seq<Line>, c: seq<Line>, d: seq<Line>,
                                    e: seq<Line>)
    ensures front + a + b + c + d + e == front + (a + b + c + d + e)
  {
    Associates(front, a, b);
    Associates(front, a + b, c);
    Associates(front, a + b + c, d);
    Associates(front, a + b + c + d, e);
  }

  lemma {:induction false} OpenBlock(input: seq<Line>, i: nat, a: seq<Line>, b: seq<Line>, tail: seq<Line>)
    requires i < |input|
    ensures input[..i + 1] + a + b + tail == input[..i] + ([input[i]] + (a + (b + tail)))
    ensures ([input[i]] + (a + (b + tail)))[1..] == a + (b + tail)
  {
    assert input[..i + 1] == input[..i] + [input[i]];
    Associates(input[..i] + [input[i]] + a, b, tail);
    Associates(input[..i] + [input[i]], a, b + tail);
    Associates(input[..i], [input[i]], a + (b + tail));
  }

  /** What stands behind `front` is the lowered block. */
  lemma {:induction false} BlockLayout(input: seq<Line>, i: nat, thens: nat, elses: nat, test: Condition, n: nat,
                                       front: seq<Line>)
    requires i < |input| && i + 1 + thens + elses <= |input|
    ensures var a := StripAll(input[i + 1..i + 1 + thens], test);
      var b := StripAll(input[i + 1 + thens..i + 1 + thens + elses], Inverse(test));
      var block := Block(thens, elses, test, n);
      front + a + AfterThens(block) + b + AfterElses(block) + input[i + 1 + thens + elses..] ==
        front + Unblocked(block, input[i + 1..])
  {
    hide StripAll, AfterThens, AfterElses;
    var rest := input[i + 1..];
    assert rest[..thens] == input[i + 1..i + 1 + thens];
    assert rest[thens..thens + elses] == input[i + 1 + thens..i + 1 + thens + elses];
    assert rest[thens + elses..] == input[i + 1 + thens + elses..];
    var block := Block(thens, elses, test, n);
    Together(front, StripAll(rest[..thens], test), AfterThens(block),
             StripAll(rest[thens..thens + elses], Inverse(test)), AfterElses(block), rest[thens + elses..]);
  }

  /** One turn of the rewriting loop: `units` has been written, the lines from k on are still to do. */
  ghost predicate Turn(lines: seq<Line>, i: nat, temp: Spare, ignore: bool, n: nat, r: seq<Line>, k: nat, ignore': bool,
                       m: nat, units: seq<Unit>)
    requires i <= |lines|
  {
    && i <= k <= |r|
    && r[..k] == lines[..i] + Flat(units)
    && Compile(lines[i..], temp, ignore, n) == Prepend(units, Compile(r[k..], temp, ignore', m))
    && Work(r[k..]) < Work(lines[i..])
  }

  /** The line at i is rewritten to `units`, all of it final. */
  lemma {:induction false} FinalTurn(lines: seq<Line>, i: nat, temp: Spare, n: nat, units: seq<Unit>)
    requires i < |lines| && lines[i].Op? && lines[i].cond.None?
    requires units == ExpandOp(lines[i].ins, temp, n)
    ensures var r := Replaced(lines, i, Flat(units));
      Turn(lines, i, temp, false, n, r, i + |Flat(units)|, false, n + Labels(lines[i], temp, false), units)
  {
    hide ExpandOp, Weight;
    var r := Replaced(lines, i, Flat(units));
    assert r[..i + |Flat(units)|] == lines[..i] + Flat(units);
    assert r[i + |Flat(units)|..] == lines[i + 1..];
    assert lines[i..][1..] == lines[i + 1..];
    WeightPositive(lines[i]);
  }

  lemma {:induction false} WeightPositive(line: Line)
    ensures Weight(line) > 0
  {
  }

  lemma {:induction false} ReplacedParts(lines: seq<Line>, i: nat, a: seq<Line>, b: seq<Line>)
    requires i < |lines|
    ensures var r := Replaced(lines, i, a + b);
      && |r| == |lines| - 1 + |a| + |b|
      && r[..i + |a|] == lines[..i] + a && r[i + |a|..] == b + lines[i + 1..]
  {
    var r := Replaced(lines, i, a + b);
    assert r == (lines[..i] + a) + (b + lines[i + 1..]);
  }

  /** The line at i is rewritten to `units` and one more instruction, which is looked at again. */
  lemma {:induction false} AgainTurn(lines: seq<Line>, i: nat, temp: Spare, n: nat, units: seq<Unit>,
                                     again: Instruction)
    requires i < |lines| && lines[i].Op? && lines[i].cond.None?
    requires ExpandOp(lines[i].ins, temp, n) == units + ExpandOp(again, temp, n)
    requires !again.Call? && !lines[i].ins.Call? && Weight(Do(again)) < Weight(lines[i])
    ensures var r := Replaced(lines, i, Flat(units) + [Do(again)]);
      Turn(lines, i, temp, false, n, r, i + |Flat(units)|, false, n, units)
  {
    hide ExpandOp, Weight, Replaced, Flat;
    var r := Replaced(lines, i, Flat(units) + [Do(again)]);
    var k := i + |Flat(units)|;
    ReplacedParts(lines, i, Flat(units), [Do(again)]);
    assert lines[i..][1..] == lines[i + 1..] == r[k..][1..];
    PrependTwice(units, ExpandOp(again, temp, n), Compile(lines[i + 1..], temp, false, n));
  }

  lemma {:induction false} FlatPair(a: Line)
    ensures Flat([Twice(a)]) == [a, a]
  {
  }

  lemma {:induction false} FlatPairs(a: Line, b: Line)
    ensures Flat([Twice(a), Twice(b)]) == [a, a, b, b]
  {
    FlatPair(b);
    assert [Twice(a), Twice(b)][1..] == [Twice(b)];
  }

  lemma {:induction false} FlatTriple(a: Line, b: Line, c: Line)
    ensures Flat([Twice(a), Twice(b), Twice(c)]) == [a, a, b, b, c, c]
  {
    assert [Twice(a), Twice(b), Twice(c)][1..] == [Twice(b), Twice(c)];
    FlatPairs(b, c);
  }

  lemma {:induction false} FlatFour(a: Line, b: Line, c: Line, d: Line)
    ensures Flat([Twice(a), Twice(b), Twice(c), Twice(d)]) == [a, a, b, b, c, c, d, d]
  {
    assert [Twice(a), Twice(b), Twice(c), Twice(d)][1..] == [Twice(b), Twice(c), Twice(d)];
    FlatTriple(b, c, d);
  }

  /** A transfer without its writeback. */
  function PlainOf(ins: Instruction): Instruction
    requires ins.Load? || ins.Store?
  {
    if ins.Load? then Load(ins.size, ins.rt, ins.base, WithoutWriteback(ins.index))
    else Store(ins.size, ins.rt, ins.base, WithoutWriteback(ins.index))
  }

  /** What one round writes for an instruction; the addition behind a transfer with writeback, and PUSH and
      POP once respelled, are left to later rounds. */
  function Written(ins: Instruction, temp: Spare, n: nat): seq<Unit> {
    if temp in Tokens(ins) then [Twice(Do(ins))]
    else if (ins.Load? || ins.Store?) && !ins.index.Offset? then [Twice(Do(PlainOf(ins)))]
    else if ins.Push? || ins.Pop? then []
    else ExpandOp(ins, temp, n)
  }

  method RewriteKnown(lines: seq<Line>, i: nat, ins: Instruction, temp: Spare, n: nat) returns (r: seq<Line>, k: nat)
    requires i < |lines| && lines[i] == Do(ins) && !ins.Call?
    requires ExpandOp(ins, temp, n) == ExpandKnown(ins, temp)
    ensures Turn(lines, i, temp, false, n, r, k, false, n, ExpandKnown(ins, temp))
  {
    hide ExpandOp, Flat, Turn, Replaced, MentionsCarry, WithFirst, WithoutFlags, Known;
    if !Known(ins) {
      r, k := lines, i + 1;
      FlatOnce(Do(ins));
      assert lines == Replaced(lines, i, [Do(ins)]) by { SameReplaced(lines, i); }
    } else if SetsFlags(ins) && MentionsCarry(ins) {
      var body, last := Do(WithoutFlags(WithFirst(ins, temp))), Do(Move(Whole, true, Tokens(ins)[0], Plain(temp)));
      FlatPairs(body, last);
      r, k := Replaced(lines, i, [body, body, last, last]), i + 4;
    } else if RepeatsFirst(ins) && Tokens(ins)[0] < PC {
      var body, last := Do(WithFirst(ins, temp)), Do(Copy(Tokens(ins)[0], temp));
      FlatPairs(body, last);
      r, k := Replaced(lines, i, [body, body, last, last]), i + 4;
    } else {
      FlatPair(Do(ins));
      r, k := Replaced(lines, i, [Do(ins), Do(ins)]), i + 2;
    }
    FinalTurn(lines, i, temp, n, ExpandKnown(ins, temp));
  }

  lemma {:induction false} FlatOnce(a: Line)
    ensures Flat([Once(a)]) == [a]
  {
  }

  lemma {:induction false} SameReplaced(lines: seq<Line>, i: nat)
    requires i < |lines|
    ensures Replaced(lines, i, [lines[i]]) == lines
  {
  }

  lemma {:induction false} AdditionExpands(base: Reg, imm: Word, temp: Spare, n: nat)
    requires temp != base
    ensures ExpandOp(Data(Add, false, base, base, Imm(imm)), temp, n) == MoveBase(Add, base, imm, temp)
  {
    var addition := Data(Add, false, base, base, Imm(imm));
    assert Tokens(addition) == [base, base] && Tokens(addition)[1..] == [base];
  }

  lemma {:induction false} TransferTokens(ins: Instruction)
    requires ins.Load? || ins.Store?
    ensures ins.base in Tokens(ins)
  {
    assert Tokens(ins)[1] == ins.base;
  }

  /** A transfer with writeback: the plain transfer twice, and the addition it leaves to a later turn. */
  method RewriteTransfer(lines: seq<Line>, i: nat, ins: Instruction, temp: Spare, n: nat) returns (r: seq<Line>, k: nat)
    requires i < |lines| && lines[i] == Do(ins) && temp !in Tokens(ins)
    requires (ins.Load? || ins.Store?) && !ins.index.Offset?
    ensures Turn(lines, i, temp, false, n, r, k, false, n, [Twice(Do(PlainOf(ins)))])
  {
    hide Flat, Turn, Replaced, Tokens;
    TransferTokens(ins);
    AdditionExpands(ins.base, ins.index.n, temp, n);
    var plain := PlainOf(ins);
    var addition := Data(Add, false, ins.base, ins.base, Imm(ins.index.n));
    r := Replaced(lines, i, [Do(plain), Do(plain), Do(addition)]);
    k := i + 2;
    FlatPair(Do(plain));
    assert [Do(plain), Do(plain)] + [Do(addition)] == [Do(plain), Do(plain), Do(addition)];
    AgainTurn(lines, i, temp, n, [Twice(Do(plain))], addition);
  }

  /** A call: the return address with its lowest bit set, the branch, and the label to return to. */
  method RewriteCall(lines: seq<Line>, i: nat, l: nat, temp: Spare, n: nat) returns (r: seq<Line>, k: nat)
    requires i < |lines| && lines[i] == Do(Call(l))
    ensures Turn(lines, i, temp, false, n, r, k, false, n + 1, ExpandCall(l, n))
  {
    hide Flat, Turn, Replaced;
    ghost var units := ExpandCall(l, n);
    var address, thumb := Do(AddressOf(LR, n)), Do(Short(Orr, false, LR, Imm(1)));
    var code := [address, address, thumb, thumb, Do(Branch(l)), Do(Branch(l)), Label(n)];
    r, k := Replaced(lines, i, code), i + 7;
    FlatTriple(address, thumb, Do(Branch(l)));
    FlatOnce(Label(n));
    FlatSum([Twice(address), Twice(thumb), Twice(Do(Branch(l)))], [Once(Label(n))]);
    assert units == [Twice(address), Twice(thumb), Twice(Do(Branch(l)))] + [Once(Label(n))];
    assert Flat(units) == code;
    FinalTurn(lines, i, temp, n, units);
  }

  method RewriteMany(lines: seq<Line>, i: nat, ins: Instruction, temp: Spare, n: nat) returns (r: seq<Line>, k: nat)
    requires i < |lines| && lines[i] == Do(ins) && temp !in Tokens(ins)
    requires ins.LoadMany? || ins.StoreMany?
    ensures Turn(lines, i, temp, false, n, r, k, false, n, ExpandOp(ins, temp, n))
  {
    hide Flat, Turn, Replaced;
    var pc := ins.LoadMany? && ins.pc;
    var moved := Imm(MovedBytes(ins.list, pc));
    ghost var units := ExpandOp(ins, temp, n);
    if ins.wb {
      var towards := Do(Data(Towards(ins.db), false, temp, ins.base, moved));
      var copy := Do(Copy(ins.base, temp));
      if ins.StoreMany? || !pc {
        var plain := Do(if ins.StoreMany? then StoreMany(ins.db, ins.base, false, ins.list)
                        else LoadMany(ins.db, ins.base, false, ins.list, false));
        r, k := Replaced(lines, i, [plain, plain, towards, towards, copy, copy]), i + 6;
        FlatTriple(plain, towards, copy);
        assert units == [Twice(plain), Twice(towards), Twice(copy)];
      } else {
        var back := Do(Data(Towards(!ins.db), false, temp, ins.base, moved));
        var load := Do(LoadMany(ins.db, temp, false, ins.list, true));
        r, k := Replaced(lines, i, [towards, towards, copy, copy, back, back, load, load]), i + 8;
        FlatFour(towards, copy, back, load);
        assert units == [Twice(towards), Twice(copy), Twice(back), Twice(load)];
      }
    } else if ins.base in ins.list {
      var copy, body := Do(Copy(temp, ins.base)), Do(WithFirst(ins, temp));
      r, k := Replaced(lines, i, [copy, copy, body, body]), i + 4;
      FlatPairs(copy, body);
    } else {
      r, k := Replaced(lines, i, [Do(ins), Do(ins)]), i + 2;
      FlatPair(Do(ins));
    }
    FinalTurn(lines, i, temp, n, units);
  }

  /** One unconditional instruction outside ignored sections. */
  method RewriteOp(lines: seq<Line>, i: nat, ins: Instruction, temp: Spare, n: nat)
    returns (r: seq<Line>, k: nat, m: nat)
    requires i < |lines| && lines[i] == Do(ins)
    ensures Turn(lines, i, temp, false, n, r, k, false, m, Written(ins, temp, n))
    ensures m == if ins.Call? && temp !in Tokens(ins) then n + 1 else n
  {
    hide Flat, Turn, Replaced, ExpandLoadMany, ExpandStoreMany, ExpandKnown, ExpandCall, PlainOf;
    m := n;
    if temp in Tokens(ins) {
      FlatPair(Do(ins));
      r, k := Replaced(lines, i, [Do(ins), Do(ins)]), i + 2;
      FinalTurn(lines, i, temp, n, [Twice(Do(ins))]);
    } else if ins.Call? {
      r, k := RewriteCall(lines, i, ins.l, temp, n);
      m := n + 1;
    } else if (ins.Load? || ins.Store?) && !ins.index.Offset? {
      r, k := RewriteTransfer(lines, i, ins, temp, n);
    } else if ins.Push? {
      r, k := RewriteAlias(lines, i, StoreMany(true, SP, true, ins.list), temp, n);
    } else if ins.Pop? {
      r, k := RewriteAlias(lines, i, LoadMany(false, SP, true, ins.list, ins.pc), temp, n);
    } else if ins.LoadMany? || ins.StoreMany? {
      r, k := RewriteMany(lines, i, ins, temp, n);
    } else {
      r, k := RewriteKnown(lines, i, ins, temp, n);
    }
  }

  /** PUSH and POP are respelled as block transfers and looked at again. */
  method RewriteAlias(lines: seq<Line>, i: nat, alias: Instruction, temp: Spare, n: nat) returns (r: seq<Line>, k: nat)
    requires i < |lines| && lines[i].Op? && lines[i].cond.None? && (lines[i].ins.Push? || lines[i].ins.Pop?)
    requires ExpandOp(lines[i].ins, temp, n) == ExpandOp(alias, temp, n)
    requires alias.LoadMany? || alias.StoreMany?
    ensures Turn(lines, i, temp, false, n, r, k, false, n, [])
    ensures k == i && r == lines[i := Do(alias)]
  {
    hide Turn, ExpandOp;
    r, k := lines[i := Do(alias)], i;
    assert [] + ExpandOp(alias, temp, n) == ExpandOp(alias, temp, n);
    AgainTurn(lines, i, temp, n, [], alias);
    assert r == Replaced(lines, i, Flat([]) + [Do(alias)]);
  }

  /** A line that is left as it is. */
  lemma {:induction false} LeftTurn(lines: seq<Line>, i: nat, temp: Spare, ignore: bool, n: nat)
    requires i < |lines|
    requires lines[i].It? ==> ignore
    requires lines[i].Op? ==> ignore
    ensures Turn(lines, i, temp, ignore, n, lines, i + 1, Ignoring(lines[i], ignore), n, [Once(lines[i])])
  {
    hide ExpandOp, Weight;
    FlatOnce(lines[i]);
    assert lines[i..][1..] == lines[i + 1..];
    WeightPositive(lines[i]);
  }

  /** A conditional line outside a block, rewritten to `units`. */
  lemma {:induction false} ConditionalTurn(lines: seq<Line>, i: nat, temp: Spare, n: nat, units: seq<Unit>)
    requires i < |lines| && lines[i].Op? && lines[i].cond.Some?
    requires units == ExpandConditional(lines[i].cond.value, lines[i].ins, temp)
    ensures var r := Replaced(lines, i, Flat(units));
      Turn(lines, i, temp, false, n, r, i + |Flat(units)|, false, n, units)
  {
    hide ExpandConditional, ExpandOp, Weight;
    assert lines[i..][1..] == lines[i + 1..];
    var r := Replaced(lines, i, Flat(units));
    assert r[..i + |Flat(units)|] == lines[..i] + Flat(units);
    assert r[i + |Flat(units)|..] == lines[i + 1..];
    WeightPositive(lines[i]);
  }

  lemma {:induction false} RepeatsSome(ins: Instruction)
    ensures RepeatsFirst(ins) ==> Tokens(ins) != [] && Tokens(ins)[0] >= 0
  {
    hide OperandTokens;
  }

  method RewriteConditional(lines: seq<Line>, i: nat, c: Condition, ins: Instruction, temp: Spare, n: nat)
    returns (r: seq<Line>, k: nat)
    requires i < |lines| && lines[i] == Op(Some(c), ins)
    ensures Turn(lines, i, temp, false, n, r, k, false, n, ExpandConditional(c, ins, temp))
  {
    hide ExpandOp, Flat, Turn, Replaced, BareMnemonic, WithFirst, KnownCondition, RepeatsFirst, Tokens;
    var line := lines[i];
    RepeatsSome(ins);
    if temp !in Tokens(ins) && (!KnownCondition(c) || !BareMnemonic(ins)) {
      r, k := lines, i + 1;
      FlatOnce(line);
      SameReplaced(lines, i);
    } else if temp !in Tokens(ins) && RepeatsFirst(ins) && Tokens(ins)[0] < PC {
      var body, last := Op(Some(c), WithFirst(ins, temp)), Do(Copy(Tokens(ins)[0], temp));
      FlatPairs(body, last);
      r, k := Replaced(lines, i, [body, body, last, last]), i + 4;
    } else {
      FlatPair(line);
      r, k := Replaced(lines, i, [line, line]), i + 2;
    }
    ConditionalTurn(lines, i, temp, n, ExpandConditional(c, ins, temp));
  }

  lemma {:induction false} BlockTurn(lines: seq<Line>, i: nat, temp: Spare, n: nat, r: seq<Line>)
    requires i < |lines| && lines[i].It? && i + 1 + lines[i].thens + lines[i].elses <= |lines|
    requires var It(t, e, c) := lines[i];
      r == lines[..i] + [Op(Some(Inverse(c)), Branch(n))] + Unblocked(Block(t, e, c, n), lines[i + 1..])
    ensures Turn(lines, i, temp, false, n, r, i + 1, false, n + 2,
                 [Once(Op(Some(Inverse(lines[i].test)), Branch(n)))])
  {
    hide Unblocked;
    var It(t, e, c) := lines[i];
    var branch := Op(Some(Inverse(c)), Branch(n));
    FlatOnce(branch);
    assert lines[i..][1..] == lines[i + 1..];
    assert r[..i + 1] == lines[..i] + [branch];
    assert r[i + 1..] == Unblocked(Block(t, e, c, n), lines[i + 1..]);
    WorkUnblocked(Block(t, e, c, n), lines[i + 1..]);
  }

  lemma {:induction false} NothingYet(source: seq<Line>, temp: Spare)
    ensures source[..0] == Flat([])
    ensures source[0..] == source
    ensures Compile(source, temp, false, FIRST_LABEL) == Prepend([], Compile(source, temp, false, FIRST_LABEL))
  {
    hide Compile;
    var r := Compile(source, temp, false, FIRST_LABEL);
    if r.Some? {
      assert [] + r.value == r.value;
    }
  }

  lemma {:induction false} Overrun(lines: seq<Line>, temp: Spare, n: nat)
    requires lines != [] && lines[0].It? && 1 + lines[0].thens + lines[0].elses > |lines|
    ensures Compile(lines, temp, false, n) == None
  {
  }

  lemma {:induction false} TurnTaken(source: seq<Line>, lines: seq<Line>, i: nat, temp: Spare, ignore: bool, n: nat,
                                     r: seq<Line>, k: nat, ignore': bool, m: nat, units: seq<Unit>, done: seq<Unit>)
    requires i <= |lines| && Turn(lines, i, temp, ignore, n, r, k, ignore', m, units)
    requires lines[..i] == Flat(done)
    requires Compile(source, temp, false, FIRST_LABEL) == Prepend(done, Compile(lines[i..], temp, ignore, n))
    ensures k <= |r| && r[..k] == Flat(done + units) && Work(r[k..]) < Work(lines[i..])
    ensures Compile(source, temp, false, FIRST_LABEL) == Prepend(done + units, Compile(r[k..], temp, ignore', m))
  {
    hide Compile, Flat, Work;
    FlatSum(done, units);
    PrependTwice(done, units, Compile(r[k..], temp, ignore', m));
  }

  lemma {:induction false} NothingLeft(source: seq<Line>, lines: seq<Line>, i: nat, temp: Spare, ignore: bool, n: nat,
                                       done: seq<Unit>)
    requires i == |lines|
    requires Compile(source, temp, false, FIRST_LABEL) == Prepend(done, Compile(lines[i..], temp, ignore, n))
    ensures Compile(source, temp, false, FIRST_LABEL) == Some(done)
    ensures lines[..i] == lines
  {
    assert lines[i..] == [];
    assert Compile(lines[i..], temp, ignore, n) == Some([]);
    assert done + [] == done;
  }

  /** The whole pass: it rewrites the list of lines in place, from front to back.  An IT block that
      runs past the end of the file makes it fail. */
  method Protect(source: seq<Line>, temp: Spare) returns (out: Option<seq<Line>>)
    ensures match Compile(source, temp, false, FIRST_LABEL)
      case None => out == None
      case Some(units) => out == Some(Flat(units))
  {
    hide Compile, Flat, Turn, Work, Unblocked, Replaced, ExpandConditional;
    var lines := source;
    var i: nat, n: nat, ignore := 0, FIRST_LABEL, false;
    ghost var done: seq<Unit> := [];
    NothingYet(source, temp);
    while i < |lines|
      invariant i <= |lines| && lines[..i] == Flat(done)
      invariant Compile(source, temp, false, FIRST_LABEL) == Prepend(done, Compile(lines[i..], temp, ignore, n))
      decreases Work(lines[i..])
    {
      var r, k: nat, m: nat, ignore' := lines, i + 1, n, ignore;
      ghost var units: seq<Unit> := [Once(lines[i])];
      ignore' := Ignoring(lines[i], ignore);
      match lines[i] {
        case Op(cond, ins) =>
          if ignore {
            LeftTurn(lines, i, temp, ignore, n);
          } else if cond.None? {
            units := Written(ins, temp, n);
            r, k, m := RewriteOp(lines, i, ins, temp, n);
          } else {
            units := ExpandConditional(cond.value, ins, temp);
            r, k := RewriteConditional(lines, i, cond.value, ins, temp, n);
          }
        case It(thens, elses, test) =>
          if ignore {
            LeftTurn(lines, i, temp, ignore, n);
          } else if i + 1 + thens + elses > |lines| {
            Overrun(lines[i..], temp, n);
            return None;
          } else {
            r := LowerBlock(lines, i, thens, elses, test, n);
            m := n + 2;
            units := [Once(Op(Some(Inverse(test)), Branch(n)))];
            BlockTurn(lines, i, temp, n, r);
          }
        case _ => LeftTurn(lines, i, temp, ignore, n);
      }
      TurnTaken(source, lines, i, temp, ignore, n, r, k, ignore', m, units, done);
      done := done + units;
      lines, i, n, ignore := r, k, m, ignore';
    }
    NothingLeft(source, lines, i, temp, ignore, n, done);
    return Some(lines);
  }
}
