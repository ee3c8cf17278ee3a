/** The blocks a run passes: it follows edges of the graph, and gets to no block that is pruned. */
module ControlPaths {
  import opened Arithmetic
  import opened ControlRuns
  import opened FlowGraph
  import opened Thumb

  /** What a step does to the block control is in: nothing, an exit to another block, or it leaves the
      blocks altogether. */
  datatype Way = Stays | Takes(exit: Exit) | Away

  /** The instruction goes to an address it takes from a register or from memory. */
  predicate Returns(ins: Instruction) {
    ins.BranchReg? || (ins.Pop? && ins.pc) || (ins.LoadMany? && ins.pc)
  }

  function WayTo(labels: set<Node>, e: Exit): Way {
    if Destination(e) in labels then Takes(e) else Away
  }

  /** An address to return to is that of the line behind a label. */
  function WayBack(lines: seq<Line>, labels: set<Node>, k: nat): Way {
    if 0 < k <= |lines| && lines[k - 1].Label? then WayTo(labels, Return(lines[k - 1].l)) else Away
  }

  /** The way a step takes.  A conditional branch that is taken counts as a jump. */
  function WayOf(lines: seq<Line>, labels: set<Node>, s: State): Way
    requires s.pc < |lines| && Step(lines, s).Some?
  {
    match lines[s.pc]
    case Label(l) => if l in labels then Takes(Fall(l)) else Stays
    case Op(cond, ins) =>
      if cond.Some? && !Evaluate(cond.value, s.flags) then Stays
      else (match ins
        case Branch(l) => WayTo(labels, Goto(l))
        case Call(l) => WayTo(labels, Goto(l))
        case BranchZero(nonzero, r, l) =>
          if s.regs[r].Num? && (s.regs[r].n == 0) != nonzero then WayTo(labels, Zero(l, l, true)) else Stays
        case CallReg(_) => Away
        case _ => if Returns(ins) then WayBack(lines, labels, Step(lines, s).value.pc) else Stays)
    case _ => Stays
  }

  /** Inside a block, or at the label of block y having jumped there from block x. */
  datatype Where = Inside(x: Node) | Entering(x: Node, y: Node) | Outside

  function Onward(lines: seq<Line>, labels: set<Node>, w: Where, s: State): Where
    requires s.pc < |lines| && Step(lines, s).Some?
  {
    match w
    case Outside => Outside
    case Entering(_, y) => Inside(y)
    case Inside(x) =>
      match WayOf(lines, labels, s)
      case Stays => w
      case Away => Outside
      case Takes(e) => if e.Fall? || e.Return? then Inside(Destination(e)) else Entering(x, Destination(e))
  }

  /** Where control is after n steps; it stays where a run ends. */
  function WhereAfter(lines: seq<Line>, labels: set<Node>, w: Where, s: State, n: nat): Where
    decreases n
  {
    if n == 0 || s.pc >= |lines| || Step(lines, s).None? then w
    else WhereAfter(lines, labels, Onward(lines, labels, w, s), Step(lines, s).value, n - 1)
  }

  predicate Located(lines: seq<Line>, labels: set<Node>, w: Where, s: State) {
    match w
    case Inside(x) => s.pc <= |lines| && BlockBefore(lines, labels, s.pc) == Some(x)
    case Entering(_, y) => s.pc < |lines| && lines[s.pc] == Label(y) && y in labels
    case Outside => true
  }

  lemma {:induction false} BlockBehind(lines: seq<Line>, labels: set<Node>, k: nat)
    requires k < |lines|
    ensures lines[k].Label? && lines[k].l in labels ==> BlockBefore(lines, labels, k + 1) == Some(lines[k].l)
    ensures !(lines[k].Label? && lines[k].l in labels) && !Leaves(lines[k]) ==>
      BlockBefore(lines, labels, k + 1) == BlockBefore(lines, labels, k)
  {
  }

  /** A step that stays goes on to the next line, and its line is none behind which a block ends. */
  lemma {:induction false} StaysOn(lines: seq<Line>, labels: set<Node>, s: State)
    requires s.pc < |lines| && Step(lines, s).Some? && WayOf(lines, labels, s) == Stays
    ensures Step(lines, s).value.pc == s.pc + 1
    ensures !(lines[s.pc].Label? && lines[s.pc].l in labels)
    ensures lines[s.pc].Op? && (lines[s.pc].cond.None? || Evaluate(lines[s.pc].cond.value, s.flags)) ==>
      !lines[s.pc].ins.Branch? && !lines[s.pc].ins.Call? && !lines[s.pc].ins.CallReg? && !Returns(lines[s.pc].ins)
    ensures !Leaves(lines[s.pc])
  {
    hide Perform, Evaluate;
    if lines[s.pc].Op? && (lines[s.pc].cond.None? || Evaluate(lines[s.pc].cond.value, s.flags)) {
      OnlyOn(lines, lines[s.pc].ins, s);
    }
  }

  /** Where an instruction goes. */
  lemma {:induction false} OnlyOn(prog: seq<Line>, ins: Instruction, s: State)
    requires Perform(prog, ins, s).Some?
    ensures var t := Perform(prog, ins, s).value;
      match ins
      case Branch(l) => Find(prog, l) == Some(t.pc)
      case Call(l) => Find(prog, l) == Some(t.pc)
      case BranchZero(nonzero, r, l) =>
        s.regs[r].Num? &&
        if (s.regs[r].n == 0) != nonzero then Find(prog, l) == Some(t.pc) else t.pc == s.pc + 1
      case _ => !Returns(ins) && !ins.CallReg? ==> t.pc == s.pc + 1
  {
    hide Second, ShiftWord, DataValue, Extend, Inserted, Extracted, Logical, CompareFlags, LoadFrom, StoreTo,
      LoadedMany,
      CellsOfMany, Addressed, FlagWord, WordFlags, Settle, BlockStart, BlockEnd;
  }

  lemma {:induction false} LocatedStep(lines: seq<Line>, labels: set<Node>, w: Where, s: State)
    requires Located(lines, labels, w, s) && s.pc < |lines| && Step(lines, s).Some?
    ensures Located(lines, labels, Onward(lines, labels, w, s), Step(lines, s).value)
  {
    hide Perform, BlockBefore, Evaluate, Leaves, Returns;
    BlockBehind(lines, labels, s.pc);
    if w.Inside? {
      match WayOf(lines, labels, s)
      case Stays => StaysOn(lines, labels, s);
      case Away =>
      case Takes(e) => Arrives(lines, labels, s);
    }
  }

  /** A way to another block leads to its label, or behind it. */
  lemma {:induction false} Arrives(lines: seq<Line>, labels: set<Node>, s: State)
    requires s.pc < |lines| && Step(lines, s).Some? && WayOf(lines, labels, s).Takes?
    ensures var e, t := WayOf(lines, labels, s).exit, Step(lines, s).value;
      var y := Destination(e);
      y in labels &&
      if e.Fall? || e.Return?
      then 0 < t.pc <= |lines| && lines[t.pc - 1] == Label(y) && BlockBefore(lines, labels, t.pc) == Some(y)
      else t.pc < |lines| && lines[t.pc] == Label(y)
  {
    hide Perform, Evaluate, Leaves, BlockBefore, Returns;
    var t := Step(lines, s).value;
    if lines[s.pc].Op? {
      OnlyOn(lines, lines[s.pc].ins, s);
    }
    if 0 < t.pc <= |lines| {
      BlockBehind(lines, labels, t.pc - 1);
    }
  }

  /** Every change of block but a return follows an edge of the graph. */
  lemma {:induction false} StepsAlongEdges(lines: seq<Line>, labels: set<Node>, x: Node, s: State)
    requires Located(lines, labels, Inside(x), s) && s.pc < |lines| && Step(lines, s).Some?
    requires WayOf(lines, labels, s).Takes? && !WayOf(lines, labels, s).exit.Return?
    ensures Edge(lines, labels, |lines|, x, Destination(WayOf(lines, labels, s).exit))
  {
    hide Perform, Evaluate, BlockBefore;
    assert EdgeAt(lines, labels, s.pc, x, Destination(WayOf(lines, labels, s).exit));
  }

  // ----- Blocks that are kept -----

  lemma {:induction false} SupportedMore(graph: map<Node, set<Node>>, mains: set<Node>, kept: set<Node>, y: Node)
    requires Supported(graph, mains, kept) && y in graph
    requires y in mains || exists x :: x in kept && x in graph[y] && x != y
    ensures Supported(graph, mains, kept + {y})
  {
  }

  /** Whatever a kept block leads to is kept. */
  lemma {:induction false} KeptNext(graph: map<Node, set<Node>>, mains: set<Node>, kept: set<Node>, x: Node, y: Node)
    requires Greatest(graph, mains, kept) && x in kept && y in graph && x in graph[y]
    ensures y in kept
  {
    if x != y {
      SupportedMore(graph, mains, kept, y);
      assert y in kept + {y};
    }
  }

  predicate KeptWhere(kept: set<Node>, w: Where) {
    match w
    case Inside(x) => x in kept
    case Entering(x, y) => x in kept && y in kept
    case Outside => true
  }

  /** The graph holds every edge of the lines. */
  ghost predicate Covers(graph: map<Node, set<Node>>, lines: seq<Line>, labels: set<Node>) {
    graph.Keys == labels && forall x, y | Edge(lines, labels, |lines|, x, y) && y in labels :: x in graph[y]
  }

  /** Returns follow edges of the graph too. */
  predicate ReturnsKnown(graph: map<Node, set<Node>>, lines: seq<Line>, labels: set<Node>, w: Where, s: State, n: nat)
    decreases n
  {
    n == 0 || s.pc >= |lines| || Step(lines, s).None? ||
    ((w.Inside? && WayOf(lines, labels, s).Takes? && WayOf(lines, labels, s).exit.Return? ==>
       var y := Destination(WayOf(lines, labels, s).exit); y in graph && w.x in graph[y]) &&
     ReturnsKnown(graph, lines, labels, Onward(lines, labels, w, s), Step(lines, s).value, n - 1))
  }

  /** A run that starts in a kept block, such as a main function, never gets to a block that is pruned; so
      pruning takes away no predecessor the run comes from. */
  lemma {:induction false} RunsAreKept(graph: map<Node, set<Node>>, mains: set<Node>, kept: set<Node>, lines: seq<Line>,
                                       labels: set<Node>, w: Where, s: State, n: nat)
    requires Covers(graph, lines, labels) && Greatest(graph, mains, kept)
    requires Located(lines, labels, w, s) && KeptWhere(kept, w) && ReturnsKnown(graph, lines, labels, w, s, n)
    ensures KeptWhere(kept, WhereAfter(lines, labels, w, s, n))
    decreases n
  {
    hide Covers, Greatest, Located, Step, WayOf;
    if n > 0 && s.pc < |lines| && Step(lines, s).Some? {
      StepKept(graph, mains, kept, lines, labels, w, s);
      LocatedStep(lines, labels, w, s);
      RunsAreKept(graph, mains, kept, lines, labels, Onward(lines, labels, w, s), Step(lines, s).value, n - 1);
    }
  }

  /** One step; where it changes the block, the predecessor is one that is left after pruning. */
  lemma {:induction false} StepKept(graph: map<Node, set<Node>>, mains: set<Node>, kept: set<Node>, lines: seq<Line>,
                                    labels: set<Node>, w: Where, s: State)
    requires Covers(graph, lines, labels) && Greatest(graph, mains, kept)
    requires Located(lines, labels, w, s) && KeptWhere(kept, w) && ReturnsKnown(graph, lines, labels, w, s, 1)
    requires s.pc < |lines| && Step(lines, s).Some?
    ensures KeptWhere(kept, Onward(lines, labels, w, s))
    ensures w.Inside? && WayOf(lines, labels, s).Takes? ==>
      var y := Destination(WayOf(lines, labels, s).exit);
      y in kept && y in Without(graph, graph.Keys - kept) && w.x in Without(graph, graph.Keys - kept)[y]
  {
    hide Step, Located, Greatest, Edge;
    if w.Inside? && WayOf(lines, labels, s).Takes? {
      var e := WayOf(lines, labels, s).exit;
      Arrives(lines, labels, s);
      if !e.Return? {
        StepsAlongEdges(lines, labels, w.x, s);
      }
      KeptNext(graph, mains, kept, w.x, Destination(e));
      KeptIsIn(graph, mains, kept);
    }
  }

  lemma {:induction false} KeptIsIn(graph: map<Node, set<Node>>, mains: set<Node>, kept: set<Node>)
    requires Greatest(graph, mains, kept)
    ensures kept <= graph.Keys
  {
  }

  /** The main functions are kept. */
  lemma {:induction false} MainsAreKept(graph: map<Node, set<Node>>, mains: set<Node>, kept: set<Node>, x: Node)
    requires Greatest(graph, mains, kept) && x in mains && x in graph
    ensures x in kept
  {
    SupportedMore(graph, mains, kept, x);
    assert x in kept + {x};
  }
}
