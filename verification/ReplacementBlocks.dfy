/** IT blocks the replacement pass does not keep. */
module ReplacementBlocks {
  import opened Arithmetic
  import opened Thumb
  import opened ReplacementPass

  // ----- The order of the conditions -----

  predicate Holds(cond: Option<Condition>, f: Flags) {
    cond.Some? ==> Evaluate(cond.value, f)
  }

  /** The instructions a row of lines executes, with the flags as they were at the IT instruction. */
  function Executed(lines: seq<Line>, f: Flags): seq<Instruction> {
    if lines == [] then []
    else (if lines[0].Op? && Holds(lines[0].cond, f) then [lines[0].ins] else []) + Executed(lines[1..], f)
  }

  function Behind(code: seq<Line>, l: nat): (r: seq<Line>)
    requires Label(l) in code
    ensures |r| < |code|
  {
    if code[0] == Label(l) then code[1..] else Behind(code[1..], l)
  }

  /** The instructions passed on the way through some code, where a branch to a label of the code is
      followed and any other instruction goes on to the next line. */
  function Passed(code: seq<Line>, f: Flags): seq<Instruction>
    decreases |code|
  {
    if code == [] then []
    else
      var rest := code[1..];
      match code[0]
      case Op(cond, ins) =>
        if !Holds(cond, f) then Passed(rest, f)
        else if ins.Branch? && Label(ins.l) in rest then Passed(Behind(rest, ins.l), f)
        else [ins] + Passed(rest, f)
      case _ => Passed(rest, f)
  }

  function Count(lines: seq<Line>, c: Condition): (n: nat)
    ensures n <= |lines|
  {
    if lines == [] then 0 else Count(lines[1..], c) + (if lines[0].Op? && lines[0].cond == Some(c) then 1 else 0)
  }

  /** Each line carries the condition of the block or its inverse. */
  predicate Conditional(lines: seq<Line>, test: Condition) {
    forall line | line in lines :: line.Op? && (line.cond == Some(test) || line.cond == Some(Inverse(test)))
  }

  /** The lines an IT instruction announces: as many carry its condition, and as many the inverse, as its
      letters say.  They do not name the labels of the block, which are fresh. */
  predicate Announced(b: Block, lines: seq<Line>) {
    && |lines| == b.thens + b.elses
    && Conditional(lines, b.test)
    && Count(lines, b.test) == b.thens
    && forall line | line in lines :: line.ins.Branch? ==> line.ins.l != b.l && line.ins.l != b.l + 1
  }

  /** The lines with the condition come first, as in `itte`, but not in `itet`. */
  predicate InOrder(b: Block, lines: seq<Line>)
    requires |lines| == b.thens + b.elses
  {
    forall i | 0 <= i < |lines| ::
      lines[i].Op? && lines[i].cond == Some(if i < b.thens then b.test else Inverse(b.test))
  }

  function Lowered(b: Block, lines: seq<Line>): seq<Line>
    requires |lines| == b.thens + b.elses
  {
    [Op(Some(Inverse(b.test)), Branch(b.l))] + Unblocked(b, lines)
  }

  lemma {:induction false} ExecutedSum(a: seq<Line>, b: seq<Line>, f: Flags)
    ensures Executed(a + b, f) == Executed(a, f) + Executed(b, f)
  {
    if a == [] {
      assert a + b == b;
    } else {
      assert (a + b)[1..] == a[1..] + b;
      ExecutedSum(a[1..], b, f);
    }
  }

  lemma {:induction false} CountSum(a: seq<Line>, b: seq<Line>, c: Condition)
    ensures Count(a + b, c) == Count(a, c) + Count(b, c)
  {
    if a == [] {
      assert a + b == b;
    } else {
      assert (a + b)[1..] == a[1..] + b;
      CountSum(a[1..], b, c);
    }
  }

  /** Of the lines of a block those with the condition that holds are executed. */
  lemma {:induction false} ExecutedCount(lines: seq<Line>, test: Condition, f: Flags)
    requires Conditional(lines, test)
    ensures |Executed(lines, f)| == if Evaluate(test, f) then Count(lines, test) else |lines| - Count(lines, test)
  {
    hide Evaluate;
    InverseHolds(test, f);
    if lines != [] {
      ExecutedCount(lines[1..], test, f);
      assert lines[0] in lines;
    }
  }

  lemma {:induction false} CountAll(lines: seq<Line>, test: Condition)
    requires Conditional(lines, test)
    ensures Count(lines, test) == |lines| <==> forall i | 0 <= i < |lines| :: lines[i].cond == Some(test)
    ensures Count(lines, test) == 0 <==> forall i | 0 <= i < |lines| :: lines[i].cond == Some(Inverse(test))
  {
    if lines != [] {
      var rest := lines[1..];
      CountAll(rest, test);
      assert lines[0] in lines;
      assert forall c: Condition :: (forall i | 0 <= i < |lines| :: lines[i].cond == Some(c)) <==>
        lines[0].cond == Some(c) && forall i | 0 <= i < |rest| :: rest[i].cond == Some(c);
    }
  }

  /** Removing a condition that holds changes nothing. */
  lemma {:induction false} ExecutedStripped(lines: seq<Line>, c: Condition, f: Flags)
    requires Evaluate(c, f)
    ensures Executed(StripAll(lines, c), f) == Executed(lines, f)
  {
    if lines != [] {
      assert StripAll(lines, c)[1..] == StripAll(lines[1..], c);
      ExecutedStripped(lines[1..], c, f);
    }
  }

  /** No line of some code branches within it. */
  predicate Straight(lines: seq<Line>, rest: seq<Line>) {
    forall line | line in lines :: line.Op? && (line.ins.Branch? ==> Label(line.ins.l) !in rest)
  }

  lemma {:induction false} StraightFront(line: Line, lines: seq<Line>, rest: seq<Line>)
    requires Straight([line] + lines, rest)
    ensures line.Op? && (line.ins.Branch? ==> Label(line.ins.l) !in lines + rest) && Straight(lines, rest)
  {
    var all := [line] + lines;
    assert all[0] in all;
    forall other | other in lines
      ensures other in all
    {
      var i :| 0 <= i < |lines| && lines[i] == other;
      assert all[i + 1] == other;
    }
  }

  lemma {:induction false} PassedFront(line: Line, rest: seq<Line>, f: Flags)
    requires line.Op? && (line.ins.Branch? ==> Label(line.ins.l) !in rest)
    ensures Passed([line] + rest, f) == (if Holds(line.cond, f) then [line.ins] else []) + Passed(rest, f)
  {
    hide Holds;
    assert ([line] + rest)[1..] == rest;
  }

  lemma {:induction false} ExecutedFront(line: Line, rest: seq<Line>, f: Flags)
    requires line.Op?
    ensures Executed([line] + rest, f) == (if Holds(line.cond, f) then [line.ins] else []) + Executed(rest, f)
  {
    hide Holds;
    assert ([line] + rest)[1..] == rest;
  }

  lemma {:induction false} PassedStraight(lines: seq<Line>, rest: seq<Line>, f: Flags)
    requires Straight(lines, rest)
    ensures Passed(lines + rest, f) == Executed(lines, f) + Passed(rest, f)
  {
    hide Passed, Straight, Holds, Executed;
    if lines == [] {
      assert lines + rest == rest;
      NothingExecuted(f);
    } else {
      var line, more := lines[0], lines[1..];
      assert lines == [line] + more;
      StraightFront(line, more, rest);
      assert lines + rest == [line] + (more + rest);
      PassedFront(line, more + rest, f);
      ExecutedFront(line, more, f);
      PassedStraight(more, rest, f);
    }
  }

  lemma {:induction false} NothingExecuted(f: Flags)
    ensures Executed([], f) == []
  {
  }

  lemma {:induction false} BehindStraight(lines: seq<Line>, l: nat, rest: seq<Line>)
    requires Label(l) !in lines
    ensures Behind(lines + [Label(l)] + rest, l) == rest
  {
    if lines == [] {
      assert lines + [Label(l)] + rest == [Label(l)] + rest;
    } else {
      assert (lines + [Label(l)] + rest)[1..] == lines[1..] + [Label(l)] + rest;
      BehindStraight(lines[1..], l, rest);
    }
  }

  lemma {:induction false} StrippedStraight(b: Block, lines: seq<Line>, from: nat, to: nat, c: Condition,
                                            rest: seq<Line>)
    requires Announced(b, lines) && from <= to <= |lines|
    requires forall line | line in rest :: line.Label? ==> line.l == b.l || line.l == b.l + 1
    ensures var part := StripAll(lines[from..to], c); Straight(part, rest) && forall line | line in part :: line.Op?
  {
    var part := StripAll(lines[from..to], c);
    forall line | line in part ensures line.Op? && (line.ins.Branch? ==> Label(line.ins.l) !in rest) {
      var i :| 0 <= i < |part| && part[i] == line;
      assert lines[from + i] in lines;
      assert part[i] == Strip(lines[from + i], c);
    }
  }

  /** What stands behind the first lines of the lowered block. */
  function Rest(b: Block, elses: seq<Line>): seq<Line> {
    AfterThens(b) + elses + AfterElses(b)
  }

  lemma {:induction false} PassedRest(b: Block, elses: seq<Line>, f: Flags)
    requires forall line | line in elses :: line.Op?
    requires b.elses == |elses|
    ensures Passed(Rest(b, elses), f) == []
  {
    if b.elses == 0 {
      assert Rest(b, elses) == [Label(b.l)];
      assert [Label(b.l)][1..] == [];
    } else {
      var inside := [Label(b.l)] + elses;
      var code := inside + [Label(b.l + 1)] + [];
      assert Rest(b, elses) == [Do(Branch(b.l + 1))] + code;
      assert code[|inside|] == Label(b.l + 1);
      BehindStraight(inside, b.l + 1, []);
      assert Rest(b, elses)[1..] == code;
    }
  }

  lemma {:induction false} LoweredParts(b: Block, lines: seq<Line>)
    requires |lines| == b.thens + b.elses
    ensures var thens := StripAll(lines[..b.thens], b.test);
      var elses := StripAll(lines[b.thens..], Inverse(b.test));
      Unblocked(b, lines) == thens + Rest(b, elses)
    ensures Lowered(b, lines)[1..] == Unblocked(b, lines)
  {
    hide StripAll;
    var n := |lines|;
    assert lines[n..] == [] && lines[b.thens..n] == lines[b.thens..];
  }

  lemma {:induction false} RestLabels(b: Block, elses: seq<Line>)
    requires forall line | line in elses :: line.Op?
    ensures forall line | line in Rest(b, elses) :: line.Label? ==> line.l == b.l || line.l == b.l + 1
  {
  }

  /** With the condition true, the first lines of the lowered block are passed and the others jumped over. */
  lemma {:induction false} PassedThens(b: Block, lines: seq<Line>, f: Flags)
    requires Announced(b, lines) && Evaluate(b.test, f)
    ensures Passed(Lowered(b, lines), f) == Executed(lines[..b.thens], f)
  {
    hide Evaluate, Straight, Executed, StripAll, Rest, Conditional;
    InverseHolds(b.test, f);
    var thens, elses := StripAll(lines[..b.thens], b.test), StripAll(lines[b.thens..], Inverse(b.test));
    LoweredParts(b, lines);
    StrippedStraight(b, lines, b.thens, |lines|, Inverse(b.test), []);
    assert lines[b.thens..|lines|] == lines[b.thens..];
    RestLabels(b, elses);
    StrippedStraight(b, lines, 0, b.thens, b.test, Rest(b, elses));
    PassedStraight(thens, Rest(b, elses), f);
    PassedRest(b, elses, f);
    ExecutedStripped(lines[..b.thens], b.test, f);
  }

  /** The branch in front leads behind the label. */
  lemma {:induction false} PassedBranch(c: Condition, l: nat, before: seq<Line>, behind: seq<Line>, f: Flags)
    requires Evaluate(c, f) && Label(l) !in before
    ensures Passed([Op(Some(c), Branch(l))] + (before + [Label(l)] + behind), f) == Passed(behind, f)
  {
    hide Evaluate, Behind;
    var code := before + [Label(l)] + behind;
    assert code[|before|] == Label(l);
    assert ([Op(Some(c), Branch(l))] + code)[1..] == code;
    BehindStraight(before, l, behind);
  }

  lemma {:induction false} ElsesBehind(b: Block, thens: seq<Line>, elses: seq<Line>)
    requires forall line | line in thens :: line.Op?
    ensures var before := thens + (if b.elses > 0 then [Do(Branch(b.l + 1))] else []);
      thens + Rest(b, elses) == before + [Label(b.l)] + (elses + AfterElses(b)) && Label(b.l) !in before
  {
  }

  /** With the condition false, the branch leads to the other lines. */
  lemma {:induction false} PassedElses(b: Block, lines: seq<Line>, f: Flags)
    requires Announced(b, lines) && !Evaluate(b.test, f)
    ensures Passed(Lowered(b, lines), f) == Executed(lines[b.thens..], f)
  {
    hide Evaluate, Straight, Executed, StripAll, Conditional, Behind, Passed, Unblocked, Rest, AfterElses;
    InverseHolds(b.test, f);
    var thens, elses := StripAll(lines[..b.thens], b.test), StripAll(lines[b.thens..], Inverse(b.test));
    LoweredParts(b, lines);
    assert lines[b.thens..|lines|] == lines[b.thens..] && lines[0..b.thens] == lines[..b.thens];
    StrippedStraight(b, lines, 0, b.thens, b.test, []);
    LabelsOf(b);
    StrippedStraight(b, lines, b.thens, |lines|, Inverse(b.test), AfterElses(b));
    ElsesBehind(b, thens, elses);
    var before := thens + (if b.elses > 0 then [Do(Branch(b.l + 1))] else []);
    PassedBranch(Inverse(b.test), b.l, before, elses + AfterElses(b), f);
    PassedStraight(elses, AfterElses(b), f);
    PassedEnd(b, f);
    ExecutedStripped(lines[b.thens..], Inverse(b.test), f);
  }

  lemma {:induction false} LabelsOf(b: Block)
    ensures forall line | line in AfterElses(b) :: line.Label? ==> line.l == b.l || line.l == b.l + 1
  {
  }

  lemma {:induction false} PassedEnd(b: Block, f: Flags)
    ensures Passed(AfterElses(b), f) == []
  {
    assert [Label(b.l + 1)][1..] == [];
  }

  /** Whatever the flags, the lowered block passes the lines the block executes if and only if the lines
      with the condition come first; otherwise it passes fewer. */
  lemma {:induction false} PassedIffInOrder(b: Block, lines: seq<Line>, f: Flags)
    requires Announced(b, lines)
    ensures Passed(Lowered(b, lines), f) == Executed(lines, f) <==> InOrder(b, lines)
    ensures !InOrder(b, lines) ==> |Passed(Lowered(b, lines), f)| < |Executed(lines, f)|
  {
    hide Passed, Executed, Lowered, Evaluate;
    var first, other := lines[..b.thens], lines[b.thens..];
    assert lines == first + other;
    ExecutedSum(first, other, f);
    CountSum(first, other, b.test);
    ConditionalPart(lines, first, other, b.test);
    ExecutedCount(first, b.test, f);
    ExecutedCount(other, b.test, f);
    CountAll(first, b.test);
    CountAll(other, b.test);
    InOrderParts(b, lines);
    if Evaluate(b.test, f) {
      PassedThens(b, lines, f);
    } else {
      PassedElses(b, lines, f);
    }
  }

  lemma {:induction false} ConditionalPart(lines: seq<Line>, a: seq<Line>, b: seq<Line>, test: Condition)
    requires lines == a + b && Conditional(lines, test)
    ensures Conditional(a, test) && Conditional(b, test)
  {
  }

  lemma {:induction false} InOrderParts(b: Block, lines: seq<Line>)
    requires Announced(b, lines)
    ensures InOrder(b, lines) <==>
      (forall i | 0 <= i < b.thens :: lines[..b.thens][i].cond == Some(b.test)) &&
      (forall i | 0 <= i < b.elses :: lines[b.thens..][i].cond == Some(Inverse(b.test)))
  {
    hide Count;
    assert forall i | 0 <= i < |lines| :: lines[i] in lines;
    if InOrder(b, lines) {
    } else {
      var i :| 0 <= i < |lines| && lines[i].cond != Some(if i < b.thens then b.test else Inverse(b.test));
      if i < b.thens {
        assert lines[..b.thens][i] == lines[i];
      } else {
        assert lines[b.thens..][i - b.thens] == lines[i];
      }
    }
  }

  // ----- Blocks that come out differently -----

  lemma {:induction false} CompileOne(line: Line, rest: seq<Line>, temp: Spare, n: nat, us: seq<Unit>)
    requires !line.It? && Expand(line, temp, false, n) == us && Ignoring(line, false) == false
    requires Labels(line, temp, false) == 0
    ensures Compile([line] + rest, temp, false, n) == Prepend(us, Compile(rest, temp, false, n))
  {
    hide Expand, Labels, Ignoring;
    assert ([line] + rest)[1..] == rest;
  }

  /** What the pass makes of lines that need no labels: what each of them becomes in turn. */
  function Expanded(lines: seq<Line>, temp: Spare, n: nat): seq<Line> {
    if lines == [] then [] else Flat(Expand(lines[0], temp, false, n)) + Expanded(lines[1..], temp, n)
  }

  lemma {:induction false} CompileRow(lines: seq<Line>, temp: Spare, n: nat)
    requires forall line | line in lines :: line.Label? || (line.Op? && !line.ins.Call?)
    ensures var units := Compile(lines, temp, false, n); units.Some? && Flat(units.value) == Expanded(lines, temp, n)
  {
    hide Compile, Expand;
    if lines == [] {
      CompileNone(temp, n);
    } else {
      var units := Expand(lines[0], temp, false, n);
      CompileRow(lines[1..], temp, n);
      assert lines == [lines[0]] + lines[1..] && lines[0] in lines;
      CompileOne(lines[0], lines[1..], temp, n, units);
      FlatSum(units, Compile(lines[1..], temp, false, n).value);
    }
  }

  lemma {:induction false} CompileNone(temp: Spare, n: nat)
    ensures Compile([], temp, false, n) == Some([])
  {
  }

  lemma {:induction false} CompileBlock(b: Block, lines: seq<Line>, temp: Spare)
    requires |lines| == b.thens + b.elses && b.l == FIRST_LABEL
    requires forall line | line in lines :: line.Op? && !line.ins.Call?
    ensures var units := Compile([It(b.thens, b.elses, b.test)] + lines, temp, false, FIRST_LABEL);
      units.Some? && Flat(units.value) ==
      [Op(Some(Inverse(b.test)), Branch(FIRST_LABEL))] + Expanded(Unblocked(b, lines), temp, FIRST_LABEL + 2)
  {
    hide Expand, Expanded, Compile, StripAll, Unblocked;
    var code := Unblocked(b, lines);
    BlockRow(b, lines);
    CompileRow(code, temp, FIRST_LABEL + 2);
    CompileIt(b, lines, temp);
    var branch := Op(Some(Inverse(b.test)), Branch(FIRST_LABEL));
    FlatSum([Once(branch)], Compile(code, temp, false, FIRST_LABEL + 2).value);
    FlatOnce(branch);
  }

  /** A line that needs no label of its own. */
  predicate Labelless(line: Line) {
    line.Label? || (line.Op? && !line.ins.Call?)
  }

  lemma {:induction false} StrippedLabelless(lines: seq<Line>, i: nat, k: nat, c: Condition)
    requires i <= k <= |lines| && forall line | line in lines :: line.Op? && !line.ins.Call?
    ensures forall line | line in StripAll(lines[i..k], c) :: Labelless(line)
  {
    forall line | line in StripAll(lines[i..k], c)
      ensures Labelless(line)
    {
      var n :| 0 <= n < k - i && StripAll(lines[i..k], c)[n] == line;
      assert lines[i..k][n] == lines[i + n] && lines[i + n] in lines;
    }
  }

  lemma {:induction false} LabelsThemselves(b: Block)
    ensures forall line | line in AfterThens(b) + AfterElses(b) :: Labelless(line)
  {
  }

  lemma {:induction false} BlockRow(b: Block, lines: seq<Line>)
    requires |lines| == b.thens + b.elses
    requires forall line | line in lines :: line.Op? && !line.ins.Call?
    ensures forall line | line in Unblocked(b, lines) :: line.Label? || (line.Op? && !line.ins.Call?)
  {
    hide StripAll, AfterThens, AfterElses;
    StrippedLabelless(lines, 0, b.thens, b.test);
    StrippedLabelless(lines, b.thens, b.thens + b.elses, Inverse(b.test));
    LabelsThemselves(b);
    assert lines[0..b.thens] == lines[..b.thens] && lines[b.thens + b.elses..] == [];
    forall line | line in Unblocked(b, lines)
      ensures Labelless(line)
    {
    }
  }

  lemma {:induction false} CompileIt(b: Block, lines: seq<Line>, temp: Spare)
    requires |lines| == b.thens + b.elses && b.l == FIRST_LABEL
    ensures Compile([It(b.thens, b.elses, b.test)] + lines, temp, false, FIRST_LABEL) ==
      Prepend([Once(Op(Some(Inverse(b.test)), Branch(FIRST_LABEL)))],
              Compile(Unblocked(b, lines), temp, false, FIRST_LABEL + 2))
  {
    var source := [It(b.thens, b.elses, b.test)] + lines;
    assert source[1..] == lines;
  }

  lemma {:induction false} RunStep(prog: seq<Line>, s: State, t: State, n: nat)
    requires !Halted(prog, s) && Step(prog, s) == Some(t)
    ensures Run(prog, s, n + 1) == Run(prog, t, n)
  {
    hide Step;
  }

  lemma {:induction false} RunNone(prog: seq<Line>, s: State)
    ensures Run(prog, s, 0) == Some(s)
  {
  }

  lemma {:induction false} FindAt(prog: seq<Line>, l: nat, i: nat)
    requires i < |prog| && prog[i] == Label(l) && forall k | 0 <= k < i :: prog[k] != Label(l)
    ensures Find(prog, l) == Some(i)
  {
  }

  // A block whose first line changes the flags

  function FlagLines(): seq<Line> {
    [Op(Some(EQ), Compare(0, Imm(1))), Op(Some(NE), Move(Whole, false, 1, Imm(2)))]
  }

  function FlagBlock(): seq<Line> {
    [It(1, 1, EQ)] + FlagLines()
  }

  function FlagBlockOutput(): seq<Line> {
    var compare, move, over := Do(Compare(0, Imm(1))), Do(Move(Whole, false, 1, Imm(2))), Do(Branch(1001));
    [Op(Some(NE), Branch(1000)), compare, compare, over, over, Label(1000), move, move, Label(1001)]
  }

  /** What the pass makes of the block. */
  lemma {:induction false} FlagBlockCompiled(temp: Spare)
    requires temp > 1
    ensures var units := Compile(FlagBlock(), temp, false, FIRST_LABEL);
      units.Some? && Flat(units.value) == FlagBlockOutput()
  {
    hide Compile, Expand, Expanded, Flat;
    var b := Block(1, 1, EQ, FIRST_LABEL);
    var compare, move, over := Do(Compare(0, Imm(1))), Do(Move(Whole, false, 1, Imm(2))), Do(Branch(1001));
    assert StripAll(FlagLines()[..1], EQ) == [compare];
    assert StripAll(FlagLines()[1..2], NE) == [move];
    assert Unblocked(b, FlagLines()) == [compare, over, Label(1000), move, Label(1001)];
    CompileBlock(b, FlagLines(), temp);
    PlainPair(None, compare.ins, temp);
    PlainPair(None, move.ins, temp);
    PlainPair(None, over.ins, temp);
    LabelAlone(1000, temp);
    LabelAlone(1001, temp);
    FiveExpanded(compare, over, Label(1000), move, Label(1001), temp);
  }

  lemma {:induction false} MoreExpanded(a: Line, rest: seq<Line>, temp: Spare)
    ensures Expanded([a] + rest, temp, 1002) == Flat(Expand(a, temp, false, 1002)) + Expanded(rest, temp, 1002)
  {
    hide Expand, Flat;
    assert ([a] + rest)[1..] == rest;
  }

  lemma {:induction false} FiveInTurn(a: Line, b: Line, c: Line, d: Line, e: Line)
    ensures [e] + [] == [e] && [d] + [e] == [d, e] && [c] + [d, e] == [c, d, e]
    ensures [b] + [c, d, e] == [b, c, d, e] && [a] + [b, c, d, e] == [a, b, c, d, e]
  {
  }

  lemma {:induction false} EmptyBehind(a: seq<Line>)
    ensures a + [] == a
  {
  }

  lemma {:induction false} FiveExpanded(a: Line, b: Line, c: Line, d: Line, e: Line, temp: Spare)
    ensures Expanded([a, b, c, d, e], temp, 1002) ==
      Flat(Expand(a, temp, false, 1002)) + (Flat(Expand(b, temp, false, 1002)) + (Flat(Expand(c, temp, false, 1002)) +
      (Flat(Expand(d, temp, false, 1002)) + Flat(Expand(e, temp, false, 1002)))))
  {
    hide Expand, Flat, Expanded;
    MoreExpanded(e, [], temp);
    MoreExpanded(d, [e], temp);
    MoreExpanded(c, [d, e], temp);
    MoreExpanded(b, [c, d, e], temp);
    MoreExpanded(a, [b, c, d, e], temp);
    NoneExpanded(temp);
    FiveInTurn(a, b, c, d, e);
    EmptyBehind(Flat(Expand(e, temp, false, 1002)));
  }

  lemma {:induction false} NoneExpanded(temp: Spare)
    ensures Expanded([], temp, 1002) == []
  {
  }

  lemma {:induction false} LabelAlone(l: nat, temp: Spare)
    ensures Flat(Expand(Label(l), temp, false, 1002)) == [Label(l)]
  {
    hide Flat;
    FlatOnce(Label(l));
  }

  /** A plain move or comparison of another register than the spare one, or a branch, is written twice. */
  lemma {:induction false} PlainPair(cond: Option<Condition>, ins: Instruction, temp: Spare)
    requires cond.Some? ==> KnownCondition(cond.value)
    requires (ins.Move? && ins.ext == Whole && !ins.s && ins.y.Imm? && ins.rd != temp) ||
      (ins.Compare? && ins.y.Imm? && ins.rn != temp) || ins.Branch?
    ensures var line := Op(cond, ins); Flat(Expand(line, temp, false, 1002)) == [line, line]
  {
    hide Flat, KnownCondition, WithFirst;
    FlatPair(Op(cond, ins));
  }

  /** The comparison in the block makes the second condition true: the source executes both lines, the
      output branches over the second. */
  lemma {:induction false} FlagBlockDiffers(s: State)
    requires s.pc == 0 && s.regs[0] == Num(0) && s.regs[1] == Num(0) && s.flags.z
    ensures var t, w := Run(FlagBlock(), s, 3), Run(FlagBlockOutput(), s, 5);
      && t.Some? && Halted(FlagBlock(), t.value) && t.value.regs[1] == Num(2)
      && w.Some? && Halted(FlagBlockOutput(), w.value) && w.value.regs[1] == Num(0)
  {
    FlagBlockSource(s);
    FlagBlockTarget(s);
  }

  lemma {:induction false} FlagBlockSource(s: State)
    requires s.pc == 0 && s.regs[0] == Num(0) && s.flags.z
    ensures var t := Run(FlagBlock(), s, 3); t.Some? && Halted(FlagBlock(), t.value) && t.value.regs[1] == Num(2)
  {
    hide Run;
    var a := Next(s);
    var f := CompareFlags(0, 1);
    assert !f.z;
    var b := Next(a).(flags := f);
    var c := Next(Set(b, 1, Num(2)));
    RunStep(FlagBlock(), s, a, 2);
    RunStep(FlagBlock(), a, b, 1);
    RunStep(FlagBlock(), b, c, 0);
    RunNone(FlagBlock(), c);
  }

  lemma {:induction false} FlagBlockTarget(s: State)
    requires s.pc == 0 && s.regs[0] == Num(0) && s.regs[1] == Num(0) && s.flags.z
    ensures var w := Run(FlagBlockOutput(), s, 5);
      w.Some? && Halted(FlagBlockOutput(), w.value) && w.value.regs[1] == Num(0)
  {
    hide Run, CompareFlags, Find;
    var out := FlagBlockOutput();
    var f := CompareFlags(0, 1);
    var a := Next(s);
    var b := Next(a).(flags := f);
    var c := Next(b);
    FindAt(out, 1001, 8);
    var d := c.(pc := 8);
    var e := Next(d);
    RunStep(out, s, a, 4);
    RunStep(out, a, b, 3);
    RunStep(out, b, c, 2);
    RunStep(out, c, d, 1);
    RunStep(out, d, e, 0);
    RunNone(out, e);
  }

  // A block whose conditions alternate

  function AlternatingLines(): seq<Line> {
    [Op(Some(EQ), Move(Whole, false, 0, Imm(1))), Op(Some(NE), Move(Whole, false, 1, Imm(1))),
     Op(Some(EQ), Move(Whole, false, 2, Imm(1)))]
  }

  function AlternatingBlock(): seq<Line> {
    [It(2, 1, EQ)] + AlternatingLines()
  }

  function AlternatingOutput(): seq<Line> {
    var first, second := Do(Move(Whole, false, 0, Imm(1))), Op(Some(NE), Move(Whole, false, 1, Imm(1)));
    var third, over := Op(Some(EQ), Move(Whole, false, 2, Imm(1))), Do(Branch(1001));
    [Op(Some(NE), Branch(1000)), first, first, second, second, over, over, Label(1000), third, third, Label(1001)]
  }

  lemma {:induction false} AlternatingCompiled(temp: Spare)
    requires temp > 2
    ensures var units := Compile(AlternatingBlock(), temp, false, FIRST_LABEL);
      units.Some? && Flat(units.value) == AlternatingOutput()
  {
    hide Compile, Expand, Expanded, Flat;
    var b := Block(2, 1, EQ, FIRST_LABEL);
    var first, second := Do(Move(Whole, false, 0, Imm(1))), Op(Some(NE), Move(Whole, false, 1, Imm(1)));
    var third, over := Op(Some(EQ), Move(Whole, false, 2, Imm(1))), Do(Branch(1001));
    assert StripAll(AlternatingLines()[..2], EQ) == [first, second];
    assert StripAll(AlternatingLines()[2..3], NE) == [third];
    var rest := [over, Label(1000), third, Label(1001)];
    assert Unblocked(b, AlternatingLines()) == [first] + ([second] + rest);
    CompileBlock(b, AlternatingLines(), temp);
    PlainPair(None, first.ins, temp);
    PlainPair(Some(NE), second.ins, temp);
    PlainPair(Some(EQ), third.ins, temp);
    PlainPair(None, over.ins, temp);
    LabelAlone(1000, temp);
    LabelAlone(1001, temp);
    MoreExpanded(first, [second] + rest, temp);
    FiveExpanded(second, over, Label(1000), third, Label(1001), temp);
    assert [second] + rest == [second, over, Label(1000), third, Label(1001)];
  }

  /** The third line stands among the lines for the inverse condition and keeps its own: it is executed
      by the source and never by the output. */
  lemma {:induction false} AlternatingDiffers(s: State)
    requires s.pc == 0 && s.regs[2] == Num(0) && s.flags.z
    ensures !InOrder(Block(2, 1, EQ, FIRST_LABEL), AlternatingLines())
    ensures var t, w := Run(AlternatingBlock(), s, 4), Run(AlternatingOutput(), s, 7);
      && t.Some? && Halted(AlternatingBlock(), t.value) && t.value.regs[2] == Num(1)
      && w.Some? && Halted(AlternatingOutput(), w.value) && w.value.regs[2] == Num(0)
  {
    AlternatingSource(s);
    AlternatingTarget(s);
    assert AlternatingLines()[1].cond == Some(NE);
  }

  lemma {:induction false} AlternatingSource(s: State)
    requires s.pc == 0 && s.flags.z
    ensures var t := Run(AlternatingBlock(), s, 4);
      t.Some? && Halted(AlternatingBlock(), t.value) && t.value.regs[2] == Num(1)
  {
    hide Run;
    var prog := AlternatingBlock();
    var a := Next(s);
    var b := Next(Set(a, 0, Num(1)));
    var c := Next(b);
    var d := Next(Set(c, 2, Num(1)));
    RunStep(prog, s, a, 3);
    RunStep(prog, a, b, 2);
    RunStep(prog, b, c, 1);
    RunStep(prog, c, d, 0);
    RunNone(prog, d);
  }

  lemma {:induction false} AlternatingTarget(s: State)
    requires s.pc == 0 && s.regs[2] == Num(0) && s.flags.z
    ensures var w := Run(AlternatingOutput(), s, 7);
      w.Some? && Halted(AlternatingOutput(), w.value) && w.value.regs[2] == Num(0)
  {
    hide Run, Find, Perform, Halted, Step;
    var a := Next(s);
    var c := Next(Set(Next(Set(a, 0, Num(1))), 0, Num(1)));
    AlternatingMoves(s);
    AlternatingJumps(c);
  }

  /** Up to the branch over the other lines. */
  lemma {:induction false} AlternatingMoves(s: State)
    requires s.pc == 0 && s.flags.z
    ensures var c := Next(Set(Next(Set(Next(s), 0, Num(1))), 0, Num(1)));
      Run(AlternatingOutput(), s, 7) == Run(AlternatingOutput(), c, 4)
  {
    hide Run, Find;
    var out := AlternatingOutput();
    var a := Next(s);
    var b := Next(Set(a, 0, Num(1)));
    var c := Next(Set(b, 0, Num(1)));
    RunStep(out, s, a, 6);
    RunStep(out, a, b, 5);
    RunStep(out, b, c, 4);
  }

  lemma {:induction false} AlternatingJumps(c: State)
    requires c.pc == 3 && c.flags.z
    ensures var w := Run(AlternatingOutput(), c, 4);
      w.Some? && Halted(AlternatingOutput(), w.value) && w.value.regs == c.regs
  {
    hide Run, Find;
    var out := AlternatingOutput();
    var d, e := Next(c), Next(Next(c));
    FindAt(out, 1001, 10);
    var g := e.(pc := 10);
    RunStep(out, c, d, 3);
    RunStep(out, d, e, 2);
    RunStep(out, e, g, 1);
    RunStep(out, g, Next(g), 0);
    RunNone(out, Next(g));
  }
}
