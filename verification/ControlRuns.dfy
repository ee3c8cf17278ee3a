/** Every legal run of a checked program is accepted, and does what the unchecked program does. */
module ControlRuns {
  import opened Arithmetic
  import opened ControlChecks
  import opened ExclusiveOr
  import opened FlowGraph
  import opened Thumb

  /** How control leaves a block: by a jump or call, by a conditional branch taken or not, into the next
      block, by a return, or by a compare-and-branch. */
  datatype Exit =
    | Goto(y: Node)
    | Cond(target: Node, behind: Node, taken: bool)
    | Fall(y: Node)
    | Return(y: Node)
    | Zero(target: Node, behind: Node, taken: bool)

  function Destination(e: Exit): Node {
    match e
    case Goto(y) => y
    case Cond(target, behind, taken) => if taken then target else behind
    case Fall(y) => y
    case Return(y) => y
    case Zero(target, behind, taken) => if taken then target else behind
  }

  datatype Leaving = Leaving(state: State, exit: Exit)

  /** A program as its blocks do it: from the start of a block to its exit, if it gets there. */
  type Program = (Node, State) -> Option<Leaving>

  /** The program does not read the reserved registers, and leaves the signature register alone. */
  ghost predicate Respectful(c: Reserved, prog: Program) {
    forall x, s, t :: SameProgram(c, s, t) ==>
      match prog(x, s)
      case None => prog(x, t) == None
      case Some(a) =>
        match prog(x, t)
        case None => false
        case Some(b) => b.exit == a.exit && SameProgram(c, a.state, b.state) && b.state.regs[c.gsr] == t.regs[c.gsr]
  }

  /** D is loaded only outside the start block, and only for blocks in the graph. */
  function PrepareIf(c: Reserved, p: Plan, x: Node, y: Node): seq<Line>
    requires WellSigned(p) && x in p.sig
  {
    if x == p.start || y !in p.preds then [] else Prepare(c, p, x, y)
  }

  /** The code run on the way out: before a branch for its target, behind it for the next block. */
  function ExitCode(c: Reserved, p: Plan, x: Node, e: Exit): seq<Line>
    requires WellSigned(p) && x in p.sig
  {
    match e
    case Goto(y) => PrepareIf(c, p, x, y)
    case Cond(target, behind, taken) => PrepareIf(c, p, x, target) + (if taken then [] else PrepareIf(c, p, x, behind))
    case Fall(y) => PrepareIf(c, p, x, y)
    case Return(_) => []
    case Zero(_, behind, taken) => if taken then [] else PrepareIf(c, p, x, behind)
  }

  /** D is loaded last for the block control goes to. */
  predicate Loads(p: Plan, x: Node, e: Exit) {
    x != p.start && !e.Return? && !(e.Zero? && e.taken)
  }

  /** An edge of the graph that the checks can follow: the block it leads to has one predecessor, or D
      is loaded for it. */
  predicate Follows(p: Plan, x: Node, e: Exit) {
    var y := Destination(e);
    x in p.sig && y in p.preds && x in p.preds[y] && (|p.preds[y]| == 1 || Loads(p, x, e))
  }

  datatype Place = Place(node: Node, state: State)

  /** The program without checks. */
  function PlainRun(prog: Program, x: Node, s: State, n: nat): Option<Place>
    decreases n
  {
    if n == 0 then Some(Place(x, s))
    else match prog(x, s)
      case None => None
      case Some(a) => PlainRun(prog, Destination(a.exit), a.state, n - 1)
  }

  ghost predicate LegalRun(p: Plan, prog: Program, x: Node, s: State, n: nat)
    decreases n
  {
    n == 0 ||
    match prog(x, s)
    case None => true
    case Some(a) => Follows(p, x, a.exit) && LegalRun(p, prog, Destination(a.exit), a.state, n - 1)
  }

  /** The program with checks: a place, an error reported, or nothing if the program stops. */
  datatype CheckedOutcome = At(place: Place) | Alarm | Stopped

  function CheckedRun(c: Reserved, p: Plan, prog: Program, x: Node, s: State, n: nat): CheckedOutcome
    requires WellSigned(p) && x in p.sig
    decreases n
  {
    if n == 0 then At(Place(x, s))
    else match prog(x, s)
      case None => Stopped
      case Some(a) =>
        var y := Destination(a.exit);
        if y !in p.preds then Stopped
        else match Walk(ExitCode(c, p, x, a.exit) + Check(c, p, y), a.state)
          case Through(t) => CheckedRun(c, p, prog, y, t, n - 1)
          case Reported => Alarm
          case Undefined => Stopped
  }

  lemma {:induction false} SameTrans(c: Reserved, a: State, b: State, d: State)
    requires SameProgram(c, a, b) && SameProgram(c, b, d)
    ensures SameProgram(c, a, d)
  {
  }

  lemma {:induction false} WalkPrepareIf(c: Reserved, p: Plan, x: Node, y: Node, s: State)
    requires Distinct(c) && WellSigned(p) && x in p.sig
    ensures var w := Walk(PrepareIf(c, p, x, y), s);
      && w.Through? && SameProgram(c, s, w.state) && w.state.regs[c.gsr] == s.regs[c.gsr]
      && (x != p.start && y in p.preds && |p.preds[y]| > 1 ==> w.state.regs[c.d] == Num(Distance(p, x, p.preds[y][0])))
  {
    hide Xor, Walk, LoadWord, WellSigned;
    WalkNothing(s);
    if x != p.start && y in p.preds && |p.preds[y]| > 1 {
      WalkLoad(c.d, FirstDistance(p, x, y), s);
    }
  }

  function FirstDistance(p: Plan, x: Node, y: Node): Word
    requires WellSigned(p) && x in p.sig && y in p.preds
  {
    Distance(p, x, p.preds[y][0])
  }

  /** The code on the way out keeps the program's state and the signature register, and loads D for a
      block with several predecessors. */
  lemma {:induction false} WalkExit(c: Reserved, p: Plan, x: Node, e: Exit, s: State)
    requires Distinct(c) && WellSigned(p) && x in p.sig
    ensures var w, y := Walk(ExitCode(c, p, x, e), s), Destination(e);
      && w.Through? && SameProgram(c, s, w.state) && w.state.regs[c.gsr] == s.regs[c.gsr]
      && (Loads(p, x, e) && y in p.preds && |p.preds[y]| > 1 ==> w.state.regs[c.d] == Num(FirstDistance(p, x, y)))
  {
    hide Xor, Walk, PrepareIf, WellSigned, Distance;
    WalkNothing(s);
    match e
    case Goto(y) => WalkPrepareIf(c, p, x, y, s);
    case Fall(y) => WalkPrepareIf(c, p, x, y, s);
    case Return(_) =>
    case Zero(_, behind, _) => WalkPrepareIf(c, p, x, behind, s);
    case Cond(target, behind, taken) =>
      var rest := if taken then [] else PrepareIf(c, p, x, behind);
      WalkSum(PrepareIf(c, p, x, target), rest, s);
      WalkPrepareIf(c, p, x, target, s);
      var t := Walk(PrepareIf(c, p, x, target), s).state;
      WalkNothing(t);
      WalkPrepareIf(c, p, x, behind, t);
      if !taken {
        SameTrans(c, s, t, Walk(rest, t).state);
      }
  }

  /** One edge: the way out and the check at the other end. */
  lemma {:induction false} EdgePasses(c: Reserved, p: Plan, x: Node, e: Exit, s: State)
    requires Distinct(c) && WellSigned(p) && Follows(p, x, e)
    requires s.regs[c.gsr] == Num(p.sig[x])
    ensures var y := Destination(e);
      var w := Walk(ExitCode(c, p, x, e) + Check(c, p, y), s);
      w.Through? && SameProgram(c, s, w.state) && w.state.regs[c.gsr] == Num(p.sig[y])
  {
    hide Xor, Walk, ExitCode, Check, Compared, Distance, Loads;
    var y := Destination(e);
    WalkSum(ExitCode(c, p, x, e), Check(c, p, y), s);
    WalkExit(c, p, x, e, s);
    var t := Walk(ExitCode(c, p, x, e), s).state;
    var d := FirstDistance(p, x, y);
    SingleIs(p, x, y);
    ComparedMeans(p, x, y, d);
    CheckOutcome(c, p, y, p.sig[x], d, t);
    SameTrans(c, s, t, Walk(Check(c, p, y), t).state);
  }

  lemma {:induction false} SingleIs(p: Plan, x: Node, y: Node)
    requires y in p.preds && x in p.preds[y]
    ensures |p.preds[y]| == 1 ==> p.preds[y][0] == x
  {
  }

  /** A legal run with checks reports no error and goes where the unchecked run goes, with the same
      program state; the signature register holds the signature of the block after each check. */
  lemma {:induction false} LegalRunsPass(c: Reserved, p: Plan, prog: Program, x: Node, s: State, t: State, n: nat)
    requires Distinct(c) && WellSigned(p) && Respectful(c, prog) && x in p.sig
    requires LegalRun(p, prog, x, s, n)
    requires SameProgram(c, s, t) && t.regs[c.gsr] == Num(p.sig[x])
    ensures match PlainRun(prog, x, s, n)
      case None => CheckedRun(c, p, prog, x, t, n) == Stopped
      case Some(a) =>
        var w := CheckedRun(c, p, prog, x, t, n);
        && w.At? && w.place.node == a.node && SameProgram(c, a.state, w.place.state)
        && a.node in p.sig && w.place.state.regs[c.gsr] == Num(p.sig[a.node])
    decreases n
  {
    hide SameProgram, Walk, Check, ExitCode, Distance;
    if n > 0 {
      Respected(c, prog, x, s, t);
      if prog(x, s).Some? {
        var a, b := prog(x, s).value, prog(x, t).value;
        var y := Destination(a.exit);
        EdgePasses(c, p, x, a.exit, b.state);
        var w := Walk(ExitCode(c, p, x, a.exit) + Check(c, p, y), b.state).state;
        SameTrans(c, a.state, b.state, w);
        LegalRunsPass(c, p, prog, y, a.state, w, n - 1);
      }
    }
  }

  lemma {:induction false} Respected(c: Reserved, prog: Program, x: Node, s: State, t: State)
    requires Respectful(c, prog) && SameProgram(c, s, t)
    ensures match prog(x, s)
      case None => prog(x, t) == None
      case Some(a) => prog(x, t).Some? && var b := prog(x, t).value;
        b.exit == a.exit && SameProgram(c, a.state, b.state) && b.state.regs[c.gsr] == t.regs[c.gsr]
  {
  }

  /** From the start of the main function, where the signature register is loaded. */
  lemma {:induction false} LegalRunsPassFromStart(c: Reserved, p: Plan, prog: Program, s: State, n: nat)
    requires Distinct(c) && WellSigned(p) && Respectful(c, prog) && LegalRun(p, prog, p.start, s, n)
    requires PlainRun(prog, p.start, s, n).Some?
    ensures var w := Walk([Do(Literal(c.gsr, Number(p.sig[p.start])))], s);
      w.Through? &&
      var a, r := PlainRun(prog, p.start, s, n).value, CheckedRun(c, p, prog, p.start, w.state, n);
      r.At? && r.place.node == a.node && SameProgram(c, a.state, r.place.state)
  {
    hide Walk, LegalRun, PlainRun, CheckedRun, Respectful;
    WalkOne(Literal(c.gsr, Number(p.sig[p.start])), s);
    var t := Next(Set(s, c.gsr, Num(p.sig[p.start])));
    LegalRunsPass(c, p, prog, p.start, s, t, n);
  }
}
