/** Which runs the written checks accept, and exactly which edges they report. */
module ControlVerdicts {
  import opened Arithmetic
  import opened ControlChecks
  import opened ControlCode
  import opened ControlOutput
  import opened ControlPaths
  import opened ControlRuns
  import opened ControlSimulation
  import opened ExclusiveOr
  import opened FlowGraph
  import opened ReplacementData
  import opened SignaturePass
  import opened Thumb

  // ----- Predecessors from the graph -----

  /** The predecessors the checks are made for are those left in the graph after pruning; the main function
      needs none. */
  ghost predicate Planned(j: Job, graph: map<Node, set<Node>>, mains: set<Node>, kept: set<Node>) {
    && Covers(graph, j.lines, j.all) && Greatest(graph, mains, kept)
    && kept - {j.p.start} <= j.p.preds.Keys <= kept
    && forall x, y | y in j.p.preds :: x in j.p.preds[y] <==> x in Without(graph, graph.Keys - kept)[y]
  }

  /** The code can tell where control comes from: there is one possibility, or D is loaded, which it is on all exits
      but those of the start block, returns, and comparing branches that are taken. */
  predicate Told(j: Job, x: Node, e: Exit) {
    var y := ControlRuns.Destination(e);
    || y == j.p.start || (y in j.p.preds && |j.p.preds[y]| == 1)
    || (x != j.p.start && !e.Return? && !(e.Zero? && e.taken))
  }

  /** The first n steps keep to the checked blocks and take exits of which the code can tell. */
  predicate Telling(j: Job, w: Where, s: State, n: nat)
    decreases n
  {
    n == 0 || s.pc >= |j.lines| || Step(j.lines, s).None? ||
    (Keeps(j, w, s) &&
     (w.Inside? && WayOf(j.lines, j.all, s).Takes? ==> Told(j, w.x, WayOf(j.lines, j.all, s).exit)) &&
     Telling(j, Onward(j.lines, j.all, w, s), Step(j.lines, s).value, n - 1))
  }

  predicate InChecked(j: Job, w: Where) {
    (w.Inside? ==> w.x in j.labels) && (w.Entering? ==> w.y in j.labels)
  }

  /** Such a run follows edges the checks were made for: that its predecessors are known is what finding
      and pruning them comes to. */
  lemma {:induction false} TellingIsLegal(j: Job, graph: map<Node, set<Node>>, mains: set<Node>, kept: set<Node>,
                                          w: Where, s: State, n: nat)
    requires Eligible(j) && Planned(j, graph, mains, kept)
    requires Located(j.lines, j.all, w, s) && KeptWhere(kept, w) && InChecked(j, w)
    requires ReturnsKnown(graph, j.lines, j.all, w, s, n) && Telling(j, w, s, n)
    ensures Legal(j, w, s, n)
    decreases n
  {
    hide Eligible, Planned, Located, Step, KeptWhere, Greatest, Covers, Onward, WayOf, Keeps, Told;
    if n > 0 && s.pc < |j.lines| && Step(j.lines, s).Some? {
      PlannedStep(j, graph, mains, kept, w, s);
      LocatedStep(j.lines, j.all, w, s);
      TellingIsLegal(j, graph, mains, kept, Onward(j.lines, j.all, w, s), Step(j.lines, s).value, n - 1);
    }
  }

  lemma {:induction false} PlannedStep(j: Job, graph: map<Node, set<Node>>, mains: set<Node>, kept: set<Node>, w: Where,
                                       s: State)
    requires Eligible(j) && Planned(j, graph, mains, kept)
    requires Located(j.lines, j.all, w, s) && KeptWhere(kept, w) && InChecked(j, w)
    requires s.pc < |j.lines| && Step(j.lines, s).Some?
    requires ReturnsKnown(graph, j.lines, j.all, w, s, 1) && Keeps(j, w, s)
    requires w.Inside? && WayOf(j.lines, j.all, s).Takes? ==> Told(j, w.x, WayOf(j.lines, j.all, s).exit)
    ensures Passes(j, w, s)
    ensures KeptWhere(kept, Onward(j.lines, j.all, w, s)) && InChecked(j, Onward(j.lines, j.all, w, s))
  {
    hide Step, Located, WayOf, Greatest, Covers, EligibleAt, Once, WellSigned, Without, ReturnsKnown;
    StepKept(graph, mains, kept, j.lines, j.all, w, s);
  }

  /** From the label of the main function: every run of which the code can tell is accepted. */
  lemma {:induction false} RunsAccepted(j: Job, graph: map<Node, set<Node>>, mains: set<Node>, kept: set<Node>,
                                        s: State, o: State, n: nat) returns (v: State)
    requires Eligible(j) && Planned(j, graph, mains, kept) && j.p.start in mains
    requires s.pc < |j.lines| && j.lines[s.pc] == Label(j.p.start) && o.pc == Head(j, s.pc)
    requires Alike(Places(j), Free(j.c), s, o) && Run(j.lines, s, n).Some?
    requires var w := Entering(j.p.start, j.p.start);
      ReturnsKnown(graph, j.lines, j.all, w, s, n) && Telling(j, w, s, n)
    ensures Comes(j, o, v) && Alike(Places(j), Free(j.c), Run(j.lines, s, n).value, v)
  {
    hide EligibleAt, Once, WellSigned, Greatest, Alike, Places, Head, Run, Telling, ReturnsKnown, Legal, Comes, Find,
      Edge;
    MainsAreKept(graph, mains, kept, j.p.start);
    TellingIsLegal(j, graph, mains, kept, Entering(j.p.start, j.p.start), s, n);
    v := LinesPassFromStart(j, s, o, n);
  }

  // ----- What is reported -----

  /** At the label of a checked block, having come from the end of block x with some number in D, the
      output goes on into the block if x is the only predecessor, or D holds the distance from x to the
      first of several; otherwise it reports an error. */
  lemma {:induction false} OutputDetects(j: Job, x: Node, y: Node, k: nat, d: Word, s: State, o: State)
    returns (v: State)
    requires Eligible(j) && k < |j.lines| && j.lines[k] == Label(y) && y in j.labels && y != j.p.start
    requires x in j.p.sig && y in j.p.preds && o.pc == Head(j, k) && Alike(Places(j), Free(j.c), s, o)
    requires o.regs[j.c.gsr] == Num(j.p.sig[x]) && o.regs[j.c.d] == Num(d)
    ensures if (if |j.p.preds[y]| == 1 then x == j.p.preds[y][0] else d == FirstDistance(j.p, x, y))
      then Comes(j, o, v) && v.pc == Start(j, k + 1) && Alike(Places(j), Free(j.c), s, v)
      else Reports(Output(j), AlarmPlace(j), o)
  {
    hide Alike, Places, Output, AlarmPlace, Start, EligibleAt, Once, WellSigned, Xor, Find, Gets, Head, Check, Distance,
      Reports, Covering;
    if if |j.p.preds[y]| == 1 then x == j.p.preds[y][0] else d == FirstDistance(j.p, x, y) {
      v := LabelRuns(j, k, x, y, s, o);
    } else {
      v := o;
      CheckReports(j, x, y, k, d, o);
    }
  }

  /** A check that does not pass. */
  lemma {:induction false} CheckReports(j: Job, x: Node, y: Node, k: nat, d: Word, o: State)
    requires Eligible(j) && k < |j.lines| && j.lines[k] == Label(y) && y in j.labels && y != j.p.start
    requires x in j.p.sig && y in j.p.preds && o.pc == Head(j, k)
    requires o.regs[j.c.gsr] == Num(j.p.sig[x]) && o.regs[j.c.d] == Num(d)
    requires !(if |j.p.preds[y]| == 1 then x == j.p.preds[y][0] else d == FirstDistance(j.p, x, y))
    ensures Reports(Output(j), AlarmPlace(j), o)
  {
    hide Output, AlarmPlace, Start, EligibleAt, Once, WellSigned, Xor, Find, Head, Check, Distance, Reports, CodeAt,
      AllPutIn, Walk, Covering;
    BehindStands(j, k);
    AlarmIs(j);
    RowPlace(j, k);
    var a := Next(o);
    DetectsExactly(j.c, j.p, x, y, d, a);
    assert After(j, k) == Check(j.c, j.p, y);
    CodeReports(j.c, Output(j), AlarmPlace(j), a.pc, After(j, k), a);
    ReportsStep(Output(j), AlarmPlace(j), o, a);
  }

  /** The step takes an exit to block y on which D is not loaded: by a comparing branch, or out of the start
      block. */
  predicate Unloaded(j: Job, x: Node, y: Node, s: State)
    requires s.pc < |j.lines| && Step(j.lines, s).Some?
  {
    WayOf(j.lines, j.all, s).Takes? &&
    var e := WayOf(j.lines, j.all, s).exit;
    ControlRuns.Destination(e) == y && (e.Zero? || (x == j.p.start && !e.Return?))
  }

  lemma {:induction false} NothingLoaded(j: Job, x: Node, y: Node, s: State)
    requires Eligible(j) && s.pc < |j.lines| && Step(j.lines, s).Some? && Unloaded(j, x, y, s)
    requires Covering(j.lines, j.labels, s.pc) == Some(x)
    ensures Ahead(j, s.pc) == []
  {
    hide Covering, Perform, Evaluate, EligibleAt, WellSigned, Once, Find;
  }

  /** On such an exit to a block with several predecessors, which may well be an edge of the graph, the run
      is accepted if D happens to hold the distance; otherwise an error is reported. */
  lemma {:induction false} UnloadedExit(j: Job, x: Node, y: Node, d: Word, s: State, o: State)
    returns (v: State, k: nat)
    requires Eligible(j) && Related(j, Inside(x), s, o) && s.pc < |j.lines| && Step(j.lines, s).Some?
    requires Keeps(j, Inside(x), s) && Unloaded(j, x, y, s) && o.regs[j.c.d] == Num(d)
    requires y != j.p.start && y in j.p.preds && |j.p.preds[y]| > 1
    ensures if d == FirstDistance(j.p, x, y)
      then Comes(j, o, v) && k < |j.lines| && j.lines[k] == Label(y) && v.pc == Start(j, k + 1)
      else Reports(Output(j), AlarmPlace(j), o)
  {
    hide Alike, Places, AlarmPlace, Start, EligibleAt, Once, WellSigned, Find, Gets, Head, Covering, Output, Perform,
      Evaluate,
      FirstDistance, Returns, Reports;
    var a := AheadRuns(j, s.pc, x, s, o);
    NothingLoaded(j, x, y, s);
    ExitKinds(j, s);
    Arrives(j.lines, j.all, s);
    if WayOf(j.lines, j.all, s).exit.Fall? {
      k := s.pc;
      v := OutputDetects(j, x, y, k, d, s, o);
    } else {
      var t := Step(j.lines, s).value;
      k := t.pc;
      JumpingLine(j, s);
      var w := StepEffect(j, s, o);
      LabelQuiet(j, k);
      GetsStep(Output(j), AlarmPlace(j), o, w);
      v := OutputDetects(j, x, y, k, d, t, w);
      if d == FirstDistance(j.p, x, y) {
        GetsTrans(Output(j), AlarmPlace(j), o, w, v);
      } else {
        ReportsStep(Output(j), AlarmPlace(j), o, w);
      }
    }
  }

  // ----- An edge of a program that is reported -----

  function SkipLines(): seq<Line> {
    [Label(0), Do(BranchZero(false, 0, 2)), Label(1), Do(Move(Whole, false, 1, Imm(1))), Label(2),
     Do(Move(Whole, false, 2, Imm(1))), Mark, Label(9), Mark]
  }

  /** A main function whose first branch skips a block; the block it leads to has two predecessors. */
  function SkipJob(): Job {
    Job(Reserved(10, 11, 12, 9), Plan(map[0 := 1, 1 := 2, 2 := 3], map[1 := [0], 2 := [0, 1]], 0),
        SkipLines(), {0, 1, 2}, {0, 1, 2})
  }

  lemma {:induction false} SkipLinesEligible(k: nat)
    requires k < |SkipLines()|
    ensures EligibleAt(SkipJob(), k)
  {
    assert k == 0 || k == 1 || k == 2 || k == 3 || k == 4 || k == 5 || k == 6 || k == 7 || k == 8;
  }

  lemma {:induction false} SkipSigned()
    ensures var j := SkipJob();
      WellSigned(j.p) && Placing(j) && Distinct(j.c) && SP !in Free(j.c) && LR !in Free(j.c)
  {
  }

  lemma {:induction false} SkipOnce()
    ensures Once(SkipLines()) && Find(SkipLines(), 9).Some?
  {
    assert SkipLines()[7] == Label(9) && Label(9) in SkipLines();
  }

  lemma {:induction false} SkipEligible()
    ensures Eligible(SkipJob())
  {
    hide EligibleAt, WellSigned, Placing, Once, Find, Free;
    SkipSigned();
    SkipOnce();
    forall k | 0 <= k < |SkipLines()| ensures EligibleAt(SkipJob(), k) {
      SkipLinesEligible(k);
    }
  }

  function SkipGraph(): map<Node, set<Node>> {
    map[0 := {}, 1 := {0}, 2 := {0, 1}]
  }

  lemma {:induction false} SkipEdges()
    ensures Covers(SkipGraph(), SkipLines(), {0, 1, 2}) && Edge(SkipLines(), {0, 1, 2}, 9, 0, 2)
  {
    var lines, all := SkipLines(), {0, 1, 2};
    assert BlockBefore(lines, all, 0) == None;
    assert BlockBefore(lines, all, 1) == Some(0);
    assert BlockBefore(lines, all, 2) == Some(0);
    assert BlockBefore(lines, all, 3) == Some(1);
    assert BlockBefore(lines, all, 4) == Some(1);
    assert EdgeAt(lines, all, 1, 0, 2);
    forall x, y | Edge(lines, all, 9, x, y) && y in all ensures x in SkipGraph()[y] {
      var i: nat :| i < 9 && EdgeAt(lines, all, i, x, y);
      assert i == 1 || i == 2 || i == 4;
    }
  }

  /** The predecessors are those of the graph, from which nothing is pruned. */
  lemma {:induction false} SkipPlanned()
    ensures Planned(SkipJob(), SkipGraph(), {0}, {0, 1, 2})
  {
    hide Covers, Edge;
    SkipEdges();
    var graph := SkipGraph();
    assert 0 in graph[1] && 0 in graph[2];
    assert Supported(graph, {0}, {0, 1, 2});
    assert graph.Keys - {0, 1, 2} == {};
    NothingGone(graph);
  }

  lemma {:induction false} SkipRelated(s: State, o: State)
    requires Eligible(SkipJob()) && s.pc == 1 && o.pc == Start(SkipJob(), 1) && s.flags == o.flags
    requires s.mem == map[] == o.mem
    requires forall r: Reg :: s.regs[r] == Num(0)
    requires o.regs == s.regs[12 := Num(1)][11 := Num(1)]
    ensures Related(SkipJob(), Inside(0), s, o)
  {
    hide Places, Start, Output, Eligible, Places;
    var j := SkipJob();
    EligiblePlacing(j);
    assert Covering(j.lines, j.labels, 1) == Some(0);
    assert MovedMem(Places(j), s.mem) == map[];
  }

  lemma {:induction false} SkipStep(s: State)
    requires s.pc == 1 && s.regs[0] == Num(0)
    ensures Step(SkipLines(), s) == Some(s.(pc := 4))
  {
    var lines := SkipLines();
    assert lines[4] == Label(2) && Label(2) in lines;
    var r := Find(lines, 2);
  }

  /** The step takes the branch, on which D is not loaded. */
  lemma {:induction false} SkipUnloaded(s: State)
    requires s.pc == 1 && s.regs[0] == Num(0) && Step(SkipLines(), s) == Some(s.(pc := 4))
    ensures Keeps(SkipJob(), Inside(0), s) && Unloaded(SkipJob(), 0, 2, s)
  {
    hide Step;
    assert SkipLines()[1] == Do(BranchZero(false, 0, 2)) && SkipLines()[4] == Label(2);
  }

  lemma {:induction false} SkipDistance()
    ensures Placing(SkipJob()) && FirstDistance(SkipJob().p, 0, 2) != 1
  {
    hide Xor;
    XorLaws(1, 1, 1);
  }

  /** The comparing branch is taken: the run follows an edge of the graph, D holds another number than the
      distance, and the output reports an error. */
  lemma {:induction false} LegalEdgeReported() returns (s: State, o: State)
    ensures var j := SkipJob();
      && Eligible(j) && Planned(j, SkipGraph(), {0}, {0, 1, 2}) && Related(j, Inside(0), s, o)
      && Step(j.lines, s) == Some(s.(pc := 4)) && Edge(j.lines, j.all, |j.lines|, 0, 2) && 0 in j.p.preds[2]
      && Reports(Output(j), AlarmPlace(j), o)
  {
    hide Places, Start, Output, AlarmPlace, FirstDistance, Edge, Reports, Planned, Related, Eligible, Covers, Comes,
      Keeps, Unloaded, Step, Placing;
    var j := SkipJob();
    SkipEligible();
    SkipEdges();
    SkipPlanned();
    SkipDistance();
    var regs: Registers := seq(15, _ => Num(0));
    s := State(1, regs, Flags(false, false, false, false), map[]);
    o := State(Start(j, 1), regs[12 := Num(1)][11 := Num(1)], s.flags, map[]);
    SkipRelated(s, o);
    SkipStep(s);
    SkipUnloaded(s);
    var v, k := UnloadedExit(j, 0, 2, 1, s, o);
  }
}
