/** Running the code the signature pass puts in, line by line: what was said of it as a piece of code holds
    of the lines at any place of a program.  It is run through without coming to the line errors are
    reported at, or it comes there. */
module ControlCode {
  import opened Arithmetic
  import opened ControlChecks
  import opened ControlOutput
  import opened ReplacementData
  import opened Thumb

  // ----- Runs that report no error -----

  /** n steps, none of which comes to the line errors are reported at. */
  function QuietRun(prog: seq<Line>, alarm: nat, s: State, n: nat): Option<State>
    decreases n
  {
    if n == 0 then Some(s)
    else match Step(prog, s)
      case None => None
      case Some(t) => if t.pc == alarm then None else QuietRun(prog, alarm, t, n - 1)
  }

  ghost predicate Gets(prog: seq<Line>, alarm: nat, a: State, b: State) {
    exists n: nat :: QuietRun(prog, alarm, a, n) == Some(b)
  }

  lemma {:induction false} GetsSelf(prog: seq<Line>, alarm: nat, a: State)
    ensures Gets(prog, alarm, a, a)
  {
    assert QuietRun(prog, alarm, a, 0) == Some(a);
  }

  lemma {:induction false} GetsStep(prog: seq<Line>, alarm: nat, a: State, b: State)
    requires Step(prog, a) == Some(b) && b.pc != alarm
    ensures Gets(prog, alarm, a, b)
  {
    hide Step;
    assert QuietRun(prog, alarm, a, 1) == Some(b);
  }

  lemma {:induction false} QuietSum(prog: seq<Line>, alarm: nat, a: State, m: nat, n: nat)
    requires QuietRun(prog, alarm, a, m).Some?
    ensures QuietRun(prog, alarm, a, m + n) == QuietRun(prog, alarm, QuietRun(prog, alarm, a, m).value, n)
    decreases m
  {
    hide Step;
    if m > 0 {
      QuietSum(prog, alarm, Step(prog, a).value, m - 1, n);
    }
  }

  lemma {:induction false} GetsTrans(prog: seq<Line>, alarm: nat, a: State, b: State, d: State)
    requires Gets(prog, alarm, a, b) && Gets(prog, alarm, b, d)
    ensures Gets(prog, alarm, a, d)
  {
    hide QuietRun;
    var m: nat :| QuietRun(prog, alarm, a, m) == Some(b);
    var n: nat :| QuietRun(prog, alarm, b, n) == Some(d);
    QuietSum(prog, alarm, a, m, n);
  }

  // ----- Running the code put in -----

  lemma {:induction false} MemUnmoved(mem: Memory)
    ensures MovedMem([], mem) == mem
  {
    forall a | a in mem ensures MovedMem([], mem)[a] == mem[a] {
      assert MovedCell([], mem[a]) == mem[a];
    }
  }

  lemma {:induction false} NothingMoved(s: State, q: nat)
    ensures Alike([], {}, s, s.(pc := q))
  {
    hide MovedMem;
    MemUnmoved(s.mem);
  }

  lemma {:induction false} UnmovedAlike(t: State, w: State)
    requires Alike([], {}, t, w)
    ensures w.regs == t.regs && w.flags == t.flags && w.mem == t.mem
  {
    hide MovedMem;
    MemUnmoved(t.mem);
  }

  /** An instruction that goes on does the same in any program and at any place. */
  lemma {:induction false} Elsewhere(prog: seq<Line>, ins: Instruction, s: State, q: nat)
    requires GoesOn(ins) && Perform([], ins, s).Some?
    ensures Perform(prog, ins, s.(pc := q)) == Some(Perform([], ins, s).value.(pc := q + 1))
  {
    hide Perform, Alike, GoesOn;
    NothingMoved(s, q);
    GoesOnAlike([], {}, [], prog, ins, s, s.(pc := q));
    UnmovedAlike(Perform([], ins, s).value, Perform(prog, ins, s.(pc := q)).value);
  }

  predicate CodeAt(prog: seq<Line>, q: nat, code: seq<Line>) {
    q + |code| <= |prog| && prog[q..q + |code|] == code
  }

  lemma {:induction false} CodeTail(prog: seq<Line>, q: nat, code: seq<Line>)
    requires CodeAt(prog, q, code) && code != []
    ensures prog[q] == code[0] && CodeAt(prog, q + 1, code[1..])
  {
    assert prog[q] == prog[q..q + |code|][0];
    assert prog[q + 1..q + |code|] == prog[q..q + |code|][1..];
  }

  /** One line of the code put in: the branch is not taken, or the instruction goes on. */
  lemma {:induction false} PutInStep(c: Reserved, prog: seq<Line>, q: nat, code: seq<Line>, s: State) returns (t: State)
    requires CodeAt(prog, q, code) && code != [] && PutIn(c, code[0]) && !Walk(code, s).Undefined?
    requires code[0].cond.None? || !Evaluate(NE, s.flags)
    ensures Walk(code, s) == Walk(code[1..], t) && Step(prog, s.(pc := q)) == Some(t.(pc := q + 1))
  {
    hide GoesOn, Evaluate, Perform;
    CodeTail(prog, q, code);
    if code[0].cond.Some? {
      t := s;
    } else {
      assert Perform([], code[0].ins, s).Some?;
      t := Perform([], code[0].ins, s).value;
      Elsewhere(prog, code[0].ins, s, q);
    }
  }

  /** Code that is run through is executed without coming to the line errors are reported at. */
  lemma {:induction false} CodeRuns(c: Reserved, prog: seq<Line>, alarm: nat, q: nat, code: seq<Line>, s: State)
    requires CodeAt(prog, q, code) && AllPutIn(c, code) && Walk(code, s).Through?
    requires !(q < alarm <= q + |code|)
    ensures Gets(prog, alarm, s.(pc := q), Walk(code, s).state.(pc := q + |code|))
    decreases |code|
  {
    hide Walk, Step, PutIn, Evaluate, Gets;
    if code == [] {
      WalkNothing(s);
      GetsSelf(prog, alarm, s.(pc := q));
    } else {
      assert code[0] in code;
      CodeTail(prog, q, code);
      BranchNotTaken(c, code, s);
      var t := PutInStep(c, prog, q, code, s);
      GetsStep(prog, alarm, s.(pc := q), t.(pc := q + 1));
      CodeRuns(c, prog, alarm, q + 1, code[1..], t);
      GetsTrans(prog, alarm, s.(pc := q), t.(pc := q + 1), Walk(code, s).state.(pc := q + |code|));
    }
  }

  lemma {:induction false} BranchNotTaken(c: Reserved, code: seq<Line>, s: State)
    requires code != [] && PutIn(c, code[0]) && Walk(code, s).Through?
    ensures code[0].Op? && (code[0].cond.None? || !Evaluate(NE, s.flags))
  {
    hide Evaluate, Perform, GoesOn;
  }

  /** The run comes to the line errors are reported at. */
  ghost predicate Reports(prog: seq<Line>, alarm: nat, a: State) {
    exists n: nat :: Run(prog, a, n).Some? && Run(prog, a, n).value.pc == alarm
  }

  lemma {:induction false} ReportsStep(prog: seq<Line>, alarm: nat, a: State, b: State)
    requires Step(prog, a) == Some(b) && (b.pc == alarm || Reports(prog, alarm, b))
    ensures Reports(prog, alarm, a)
  {
    hide Step;
    StepInside(prog, a);
    if b.pc == alarm {
      assert Run(prog, b, 0) == Some(b);
      assert Run(prog, a, 1) == Some(b);
    } else {
      var n: nat :| Run(prog, b, n).Some? && Run(prog, b, n).value.pc == alarm;
      assert Run(prog, a, n + 1) == Run(prog, b, n);
    }
  }

  lemma {:induction false} StepInside(prog: seq<Line>, a: State)
    requires Step(prog, a).Some?
    ensures a.pc < |prog|
  {
  }

  /** Code that reports an error comes there. */
  lemma {:induction false} CodeReports(c: Reserved, prog: seq<Line>, alarm: nat, q: nat, code: seq<Line>, s: State)
    requires CodeAt(prog, q, code) && AllPutIn(c, code) && Walk(code, s) == Reported
    requires Find(prog, c.error) == Some(alarm)
    ensures Reports(prog, alarm, s.(pc := q))
    decreases |code|
  {
    hide Walk, PutIn, Evaluate, Reports, Perform, Run, Find;
    WalkNothing(s);
    assert code[0] in code;
    CodeTail(prog, q, code);
    PutInForms(c, code[0]);
    if code[0].cond.Some? && Evaluate(NE, s.flags) {
      BranchTaken(prog, c.error, s.(pc := q), alarm);
      ReportsStep(prog, alarm, s.(pc := q), s.(pc := alarm));
    } else {
      var t := PutInStep(c, prog, q, code, s);
      CodeReports(c, prog, alarm, q + 1, code[1..], t);
      ReportsStep(prog, alarm, s.(pc := q), t.(pc := q + 1));
    }
  }

  lemma {:induction false} PutInForms(c: Reserved, line: Line)
    requires PutIn(c, line)
    ensures line.Op? && (line.cond.Some? ==> line == Op(Some(NE), Branch(c.error)))
  {
  }

  lemma {:induction false} BranchTaken(prog: seq<Line>, l: nat, s: State, k: nat)
    requires s.pc < |prog| && prog[s.pc] == Op(Some(NE), Branch(l)) && Evaluate(NE, s.flags) && Find(prog, l) == Some(k)
    ensures Step(prog, s) == Some(s.(pc := k))
  {
  }
}
