/** The signature checks on control flow: the code put at block entries and exits, what it lets pass,
    and that it lets every legal run pass unchanged. */
module ControlChecks {
  import opened Arithmetic
  import opened ExclusiveOr
  import opened FlowGraph
  import opened Thumb

  /** Three registers the program leaves to the checks, and the place errors are reported. */
  datatype Reserved = Reserved(tmp: Reg, d: Reg, gsr: Reg, error: Node)

  predicate Distinct(c: Reserved) {
    c.tmp != c.d && c.tmp != c.gsr && c.d != c.gsr
  }

  /** Signatures and sorted predecessors of the checked blocks. */
  datatype Plan = Plan(sig: map<Node, Word>, preds: map<Node, seq<Node>>, start: Node)

  /** Every block and each of its predecessors has a signature of its own. */
  predicate WellSigned(p: Plan) {
    && (forall x, y | x in p.sig && y in p.sig :: p.sig[x] == p.sig[y] ==> x == y)
    && p.start in p.sig
    && (forall x | x in p.preds :: x in p.sig && p.preds[x] != [] && forall y | y in p.preds[x] :: y in p.sig)
  }

  function Distance(p: Plan, x: Node, y: Node): Word
    requires x in p.sig && y in p.sig
  {
    Xor(p.sig[x], p.sig[y])
  }

  function LoadWord(rd: Reg, n: Word): Instruction {
    if n == 0 then Move(Whole, false, rd, Imm(0)) else Literal(rd, Number(n))
  }

  function Do(ins: Instruction): Line {
    Op(None, ins)
  }

  function Mix(c: Reserved): Line {
    Do(Data(Eor, false, c.gsr, c.gsr, Plain(c.d)))
  }

  /** The comparison of the register with the signature of the block; flags are kept in D meanwhile. */
  function Comparison(c: Reserved, n: Word): seq<Line> {
    [Do(Literal(c.tmp, Number(n))), Do(ReadFlags(c.d)), Do(Compare(c.tmp, Plain(c.gsr))),
     Op(Some(NE), Branch(c.error)), Do(WriteFlags(c.d))]
  }

  /** The code at the label of a block. */
  function Check(c: Reserved, p: Plan, x: Node): seq<Line>
    requires WellSigned(p) && x in p.preds
  {
    var n := Distance(p, x, p.preds[x][0]);
    (if |p.preds[x]| > 1 then [Mix(c)] else []) + [Do(LoadWord(c.d, n))] + (if n != 0 then [Mix(c)] else []) +
    Comparison(c, p.sig[x])
  }

  /** The code before control goes from x to y, where y has several predecessors. */
  function Prepare(c: Reserved, p: Plan, x: Node, y: Node): seq<Line>
    requires WellSigned(p) && x in p.sig && y in p.preds
  {
    if |p.preds[y]| > 1 then [Do(LoadWord(c.d, Distance(p, x, p.preds[y][0])))] else []
  }

  // ----- Running straight-line code -----

  /** Code is run through, or an error reported, or an instruction is undefined. */
  datatype Outcome = Through(state: State) | Reported | Undefined

  function Walk(code: seq<Line>, s: State): Outcome {
    if code == [] then Through(s)
    else match code[0]
      case Op(cond, ins) =>
        if cond.Some? && !Evaluate(cond.value, s.flags) then Walk(code[1..], s)
        else if ins.Branch? then Reported
        else (match Perform([], ins, s)
          case None => Undefined
          case Some(t) => Walk(code[1..], t))
      case _ => Walk(code[1..], s)
  }

  lemma {:induction false} WalkSum(a: seq<Line>, b: seq<Line>, s: State)
    ensures Walk(a + b, s) ==
      match Walk(a, s) case Through(t) => Walk(b, t) case Reported => Reported case Undefined => Undefined
    decreases |a|
  {
    hide Perform;
    if a == [] {
      assert a + b == b;
    } else {
      assert (a + b)[1..] == a[1..] + b;
      match a[0]
      case Op(cond, ins) =>
        if cond.Some? && !Evaluate(cond.value, s.flags) {
          WalkSum(a[1..], b, s);
        } else if !ins.Branch? && Perform([], ins, s).Some? {
          WalkSum(a[1..], b, Perform([], ins, s).value);
        }
      case _ => WalkSum(a[1..], b, s);
    }
  }

  lemma {:induction false} WalkOne(ins: Instruction, s: State)
    requires !ins.Branch?
    ensures Walk([Do(ins)], s) == match Perform([], ins, s) case None => Undefined case Some(t) => Through(t)
  {
    hide Perform;
  }

  /** The program's own part of the state: all but the reserved registers and the place in the code. */
  predicate SameProgram(c: Reserved, s: State, t: State) {
    s.flags == t.flags && s.mem == t.mem &&
    forall r: Reg | r != c.tmp && r != c.d && r != c.gsr :: s.regs[r] == t.regs[r]
  }

  lemma {:induction false} FlagsBack(f: Flags)
    ensures WordFlags(FlagWord(f)) == f
  {
  }

  /** Loading a word sets one register. */
  lemma {:induction false} WalkLoad(rd: Reg, n: Word, s: State)
    ensures Walk([Do(LoadWord(rd, n))], s) == Through(Next(Set(s, rd, Num(n))))
  {
    WalkOne(LoadWord(rd, n), s);
  }

  lemma {:induction false} WalkMix(c: Reserved, s: State)
    requires s.regs[c.gsr].Num? && s.regs[c.d].Num?
    ensures Walk([Mix(c)], s) == Through(Next(Set(s, c.gsr, Num(Xor(s.regs[c.gsr].n, s.regs[c.d].n)))))
  {
    hide BitwiseWord;
    WalkOne(Data(Eor, false, c.gsr, c.gsr, Plain(c.d)), s);
  }

  /** The comparison passes exactly when the register holds the signature, and then leaves flags and
      register as they were. */
  lemma {:induction false} WalkComparison(c: Reserved, n: Word, s: State)
    requires Distinct(c) && s.regs[c.gsr].Num?
    ensures var w := Walk(Comparison(c, n), s);
      if s.regs[c.gsr].n == n
      then w.Through? && SameProgram(c, s, w.state) && w.state.regs[c.gsr] == s.regs[c.gsr]
      else w == Reported
  {
    hide CompareFlags, FlagWord, Walk, Perform;
    CompareDecides(n, s.regs[c.gsr].n);
    var code := Comparison(c, n);
    var s1 := Next(Set(s, c.tmp, Num(n)));
    var s2 := Next(Set(s1, c.d, Num(FlagWord(s.flags))));
    var s3 := Next(s2.(flags := CompareFlags(n, s.regs[c.gsr].n)));
    var s4 := Next(s3.(flags := s.flags));
    Performs(c.tmp, n, c.d, c.gsr, s, s1, s2, s3);
    WalkStep(code, s, s1);
    WalkStep(code[1..], s1, s2);
    WalkStep(code[2..], s2, s3);
    Tails(code);
    WalkBranch(code[3..], s3);
    if s.regs[c.gsr].n == n {
      WalkStep(code[4..], s3, s4);
      WalkNothing(s4);
    }
  }

  lemma {:induction false} Tails(code: seq<Line>)
    requires |code| == 5
    ensures code[1..][1..] == code[2..] && code[2..][1..] == code[3..] && code[3..][1..] == code[4..]
    ensures code[4..][1..] == []
  {
  }

  lemma {:induction false} Performs(tmp: Reg, n: Word, d: Reg, gsr: Reg, s: State, s1: State, s2: State, s3: State)
    requires s2.regs[tmp] == Num(n) && s2.regs[gsr].Num? && s1.flags == s.flags && s3.regs[d] == Num(FlagWord(s.flags))
    ensures Perform([], Literal(tmp, Number(n)), s) == Some(Next(Set(s, tmp, Num(n))))
    ensures Perform([], ReadFlags(d), s1) == Some(Next(Set(s1, d, Num(FlagWord(s.flags)))))
    ensures Perform([], Compare(tmp, Plain(gsr)), s2) == Some(Next(s2.(flags := CompareFlags(n, s2.regs[gsr].n))))
    ensures Perform([], WriteFlags(d), s3) == Some(Next(s3.(flags := s.flags)))
  {
    hide CompareFlags, FlagWord, WordFlags;
    FlagsBack(s.flags);
  }

  lemma {:induction false} WalkNothing(s: State)
    ensures Walk([], s) == Through(s)
  {
  }

  lemma {:induction false} WalkStep(code: seq<Line>, s: State, t: State)
    requires code != [] && code[0].Op? && code[0].cond.None? && !code[0].ins.Branch?
    requires Perform([], code[0].ins, s) == Some(t)
    ensures Walk(code, s) == Walk(code[1..], t)
  {
    hide Perform;
  }

  lemma {:induction false} WalkBranch(code: seq<Line>, s: State)
    requires code != [] && code[0].Op? && code[0].cond.Some? && code[0].ins.Branch?
    ensures Walk(code, s) == if Evaluate(code[0].cond.value, s.flags) then Reported else Walk(code[1..], s)
  {
  }

  // ----- What a check lets pass -----

  /** What the check compares with the signature. */
  function Compared(p: Plan, x: Node, g: Word, d: Word): Word
    requires WellSigned(p) && x in p.preds
  {
    Xor(if |p.preds[x]| > 1 then Xor(g, d) else g, Distance(p, x, p.preds[x][0]))
  }

  lemma {:induction false} WalkMixIn(c: Reserved, p: Plan, x: Node, g: Word, d: Word, s: State)
    requires Distinct(c) && WellSigned(p) && x in p.preds
    requires s.regs[c.gsr] == Num(g) && (|p.preds[x]| > 1 ==> s.regs[c.d] == Num(d))
    ensures var w := Walk(if |p.preds[x]| > 1 then [Mix(c)] else [], s);
      w.Through? && SameProgram(c, s, w.state) &&
      w.state.regs[c.gsr] == Num(if |p.preds[x]| > 1 then Xor(g, d) else g)
  {
    hide Xor, Walk, WellSigned;
    WalkNothing(s);
    if |p.preds[x]| > 1 {
      WalkMix(c, s);
    }
  }

  lemma {:induction false} WalkDistance(c: Reserved, n: Word, g: Word, s: State)
    requires Distinct(c) && s.regs[c.gsr] == Num(g)
    ensures var w := Walk([Do(LoadWord(c.d, n))] + (if n != 0 then [Mix(c)] else []), s);
      w.Through? && SameProgram(c, s, w.state) && w.state.regs[c.gsr] == Num(Xor(g, n))
  {
    hide Xor, Walk;
    var t := Next(Set(s, c.d, Num(n)));
    WalkLoad(c.d, n, s);
    WalkSum([Do(LoadWord(c.d, n))], if n != 0 then [Mix(c)] else [], s);
    WalkNothing(t);
    XorLaws(g, 0, 0);
    if n != 0 {
      WalkMix(c, t);
    }
  }

  /** The check of a block runs through exactly when the signature register, taken through D when there
      are several predecessors, comes out as the signature; the program's state is left alone. */
  lemma {:induction false} CheckOutcome(c: Reserved, p: Plan, x: Node, g: Word, d: Word, s: State)
    requires Distinct(c) && WellSigned(p) && x in p.preds
    requires s.regs[c.gsr] == Num(g) && (|p.preds[x]| > 1 ==> s.regs[c.d] == Num(d))
    ensures var w := Walk(Check(c, p, x), s);
      if Compared(p, x, g, d) == p.sig[x]
      then w.Through? && SameProgram(c, s, w.state) && w.state.regs[c.gsr] == Num(p.sig[x])
      else w == Reported
  {
    hide Xor, Walk, Comparison, LoadWord, Mix;
    var n := Distance(p, x, p.preds[x][0]);
    var mix := if |p.preds[x]| > 1 then [Mix(c)] else [];
    var load := [Do(LoadWord(c.d, n))] + (if n != 0 then [Mix(c)] else []);
    assert Check(c, p, x) == mix + (load + Comparison(c, p.sig[x]));
    WalkSum(mix, load + Comparison(c, p.sig[x]), s);
    WalkMixIn(c, p, x, g, d, s);
    var a := Walk(mix, s).state;
    WalkSum(load, Comparison(c, p.sig[x]), a);
    WalkDistance(c, n, a.regs[c.gsr].n, a);
    var b := Walk(load, a).state;
    WalkComparison(c, p.sig[x], b);
  }

  /** Coming from the end of block x, with any value in D, the check of y is passed exactly when x is
      its only predecessor, or, if it has several, when D holds the distance from x to the first. */
  lemma {:induction false} DetectsExactly(c: Reserved, p: Plan, x: Node, y: Node, d: Word, s: State)
    requires Distinct(c) && WellSigned(p) && x in p.sig && y in p.preds
    requires s.regs[c.gsr] == Num(p.sig[x]) && s.regs[c.d] == Num(d)
    ensures var first := p.preds[y][0];
      if |p.preds[y]| == 1 then Walk(Check(c, p, y), s).Through? <==> x == first
      else Walk(Check(c, p, y), s).Through? <==> d == Distance(p, x, first)
    ensures !Walk(Check(c, p, y), s).Through? ==> Walk(Check(c, p, y), s) == Reported
  {
    hide Xor, Walk, Check;
    CheckOutcome(c, p, y, p.sig[x], d, s);
    ComparedMeans(p, x, y, d);
  }

  lemma {:induction false} ComparedMeans(p: Plan, x: Node, y: Node, d: Word)
    requires WellSigned(p) && x in p.sig && y in p.preds
    ensures var first := p.preds[y][0];
      Compared(p, y, p.sig[x], d) == p.sig[y] <==>
      if |p.preds[y]| == 1 then x == first else d == Distance(p, x, first)
  {
    hide Xor;
    var first := p.preds[y][0];
    assert first in p.preds[y];
    var before := if |p.preds[y]| > 1 then Xor(p.sig[x], d) else p.sig[x];
    var n := Distance(p, y, first);
    XorLaws(before, n, 0);
    XorSolves(n, before, p.sig[y]);
    XorLaws(p.sig[y], p.sig[first], p.sig[y]);
    XorLaws(p.sig[first], p.sig[y], p.sig[y]);
    XorLaws(p.sig[y], p.sig[y], p.sig[first]);
    XorLaws(p.sig[first], 0, 0);
    assert Xor(n, p.sig[y]) == p.sig[first];
    XorSolves(p.sig[x], d, p.sig[first]);
  }
}
