/** Runs of the lines the signature pass writes do what the source does and report no error. */
module ControlSimulation {
  import opened Arithmetic
  import opened ControlChecks
  import opened ControlCode
  import opened ControlMeaning
  import opened ControlOutput
  import opened ControlPaths
  import opened ControlRuns
  import opened ExclusiveOr
  import opened FlowGraph
  import opened ReplacementData
  import opened SignaturePass
  import opened Thumb

  // ----- Where the output stands -----

  /** The check of block y passes on the way from block x. */
  predicate Ready(j: Job, x: Node, y: Node, o: State)
    requires Eligible(j)
  {
    y == j.p.start ||
    (y in j.p.preds && x in j.p.sig && o.regs[j.c.gsr] == Num(j.p.sig[x]) &&
     if |j.p.preds[y]| == 1 then x == j.p.preds[y][0] else o.regs[j.c.d] == Num(FirstDistance(j.p, x, y)))
  }

  predicate Silent(j: Job, k: nat) {
    k < |j.lines| ==> j.lines[k] != Label(j.c.error)
  }

  /** Inside a block before the row of the source line, the signature register holding the signature of the
      block; or at the label of the block control goes to. */
  predicate Beside(j: Job, w: Where, s: State, o: State)
    requires Eligible(j)
  {
    match w
    case Inside(x) =>
      && x in j.labels && s.pc <= |j.lines| && Covering(j.lines, j.labels, s.pc) == Some(x)
      && Silent(j, s.pc) && o.pc == Start(j, s.pc) && o.regs[j.c.gsr] == Num(j.p.sig[x])
    case Entering(x, y) =>
      && y in j.labels && s.pc < |j.lines| && j.lines[s.pc] == Label(y)
      && o.pc == Head(j, s.pc) && Ready(j, x, y, o)
    case Outside => false
  }

  predicate Related(j: Job, w: Where, s: State, o: State)
    requires Eligible(j)
  {
    Beside(j, w, s, o) && Alike(Places(j), Free(j.c), s, o)
  }

  /** The step keeps to the checked blocks: it does not run into a directive or into the function errors are
      reported to. */
  predicate Keeps(j: Job, w: Where, s: State)
    requires s.pc < |j.lines| && Step(j.lines, s).Some?
  {
    Silent(j, Step(j.lines, s).value.pc) &&
    match w
    case Outside => false
    case Entering(_, _) => true
    case Inside(x) =>
      !j.lines[s.pc].Mark? &&
      match WayOf(j.lines, j.all, s)
      case Stays => true
      case Away => false
      case Takes(e) => ControlRuns.Destination(e) in j.labels
  }

  /** It keeps to edges the checks can follow. */
  predicate Passes(j: Job, w: Where, s: State)
    requires s.pc < |j.lines| && Step(j.lines, s).Some?
  {
    Keeps(j, w, s) &&
    (w.Inside? && WayOf(j.lines, j.all, s).Takes? ==>
       var e := WayOf(j.lines, j.all, s).exit;
       ControlRuns.Destination(e) == j.p.start || Follows(j.p, w.x, e))
  }

  /** The first n steps do. */
  predicate Legal(j: Job, w: Where, s: State, n: nat)
    decreases n
  {
    n == 0 || s.pc >= |j.lines| || Step(j.lines, s).None? ||
    (Passes(j, w, s) && Legal(j, Onward(j.lines, j.all, w, s), Step(j.lines, s).value, n - 1))
  }

  /** The output comes there without reporting an error. */
  ghost predicate Comes(j: Job, o: State, w: State)
    requires Eligible(j)
  {
    Gets(Output(j), AlarmPlace(j), o, w)
  }

  // ----- Within a row -----

  lemma {:induction false} NotErrorLine(j: Job, k: nat)
    requires Eligible(j) && Silent(j, k)
    ensures k != ErrorLine(j)
  {
    hide AlarmPlace, Output;
    AlarmIs(j);
  }

  lemma {:induction false} AlarmOutside(j: Job, k: nat)
    requires Eligible(j) && k < |j.lines| && k != ErrorLine(j)
    ensures !(Start(j, k) <= AlarmPlace(j) < Start(j, k + 1))
    ensures k + 1 != ErrorLine(j) ==> AlarmPlace(j) != Start(j, k + 1)
  {
    hide AlarmPlace, Start, Eligible, ErrorLine;
    var a := AlarmPlace(j);
    EligiblePlacing(j);
    if Start(j, k) <= a < Start(j, k + 1) {
      NotAlarm(j, k, a);
    }
    if k + 1 != ErrorLine(j) {
      NotAlarm(j, k + 1, Start(j, k + 1));
    }
  }

  lemma {:induction false} SameProgramAlike(j: Job, s: State, o: State, w: State, pc: nat)
    requires Eligible(j) && Alike(Places(j), Free(j.c), s, o) && SameProgram(j.c, o, w)
    ensures Alike(Places(j), Free(j.c), s, w.(pc := pc))
  {
    hide Places, Eligible, MovedMem;
  }

  /** D holds the distance to the block the line leads to, if that has several predecessors. */
  predicate Loaded(j: Job, k: nat, x: Node, w: State)
    requires Eligible(j) && k < |j.lines| && x in j.p.sig
  {
    var y := LeadsTo(j.lines[k], j.labels);
    y.Some? && x != j.p.start && y.value in j.p.preds && |j.p.preds[y.value]| > 1 ==>
      w.regs[j.c.d] == Num(FirstDistance(j.p, x, y.value))
  }

  lemma {:induction false} AheadWalks(j: Job, k: nat, x: Node, o: State)
    requires Eligible(j) && k < |j.lines| && Covering(j.lines, j.labels, k) == Some(x) && x in j.labels
    ensures var w := Walk(Ahead(j, k), o);
      w.Through? && SameProgram(j.c, o, w.state) && w.state.regs[j.c.gsr] == o.regs[j.c.gsr] && Loaded(j, k, x, w.state)
  {
    hide Covering, Walk, EligibleAt, Once, WellSigned, Xor, Find, PrepareIf;
    WalkNothing(o);
    var y := LeadsTo(j.lines[k], j.labels);
    if y.Some? {
      WalkPrepareIf(j.c, j.p, x, y.value, o);
    }
  }

  /** The code before a line is run through; D is loaded if the line leads to a block with several
      predecessors. */
  lemma {:induction false} AheadRuns(j: Job, k: nat, x: Node, s: State, o: State) returns (w: State)
    requires Eligible(j) && k < |j.lines| && Silent(j, k) && Covering(j.lines, j.labels, k) == Some(x) && x in j.labels
    requires o.pc == Start(j, k) && Alike(Places(j), Free(j.c), s, o) && o.regs[j.c.gsr] == Num(j.p.sig[x])
    ensures Comes(j, o, w) && w.pc == Head(j, k) && Alike(Places(j), Free(j.c), s, w)
    ensures w.regs[j.c.gsr] == Num(j.p.sig[x])
    ensures Loaded(j, k, x, w) && (Ahead(j, k) == [] ==> w == o)
  {
    hide Alike, Places, Output, Covering, Walk, AlarmPlace, ErrorLine, Start, AllPutIn, EligibleAt, Once, WellSigned,
      Xor, Find,
      Gets, Ahead, LeadsTo, FirstDistance;
    NotErrorLine(j, k);
    RowPlace(j, k);
    RowPutIn(j, k);
    AlarmOutside(j, k);
    AheadWalks(j, k, x, o);
    WalkNothing(o);
    var a := Walk(Ahead(j, k), o).state;
    CodeRuns(j.c, Output(j), AlarmPlace(j), o.pc, Ahead(j, k), o);
    w := a.(pc := Head(j, k));
    SameProgramAlike(j, s, o, a, Head(j, k));
  }

  /** Where the code behind the label of a block stands. */
  lemma {:induction false} BehindStands(j: Job, k: nat)
    requires Eligible(j) && k < |j.lines| && j.lines[k].Label? && j.lines[k].l in j.labels
    ensures CodeAt(Output(j), Head(j, k) + 1, After(j, k)) && AllPutIn(j.c, After(j, k))
    ensures Start(j, k + 1) == Head(j, k) + 1 + |After(j, k)|
    ensures !(Head(j, k) < AlarmPlace(j) <= Start(j, k + 1))
  {
    hide Output, AlarmPlace, Start, AllPutIn, Eligible, Head, ErrorLine, After;
    EligiblePlacing(j);
    LabelApart(j, k);
    NotErrorLine(j, k);
    NotErrorLine(j, k + 1);
    RowPlace(j, k);
    RowPutIn(j, k);
    AlarmOutside(j, k);
  }

  /** The code behind the label of a block is run through if the check passes, and leaves the signature of
      the block in the register. */
  lemma {:induction false} BehindRuns(j: Job, k: nat, x: Node, y: Node, s: State, o: State) returns (w: State)
    requires Eligible(j) && k < |j.lines| && j.lines[k] == Label(y) && y in j.labels && Ready(j, x, y, o)
    requires o.pc == Head(j, k) + 1 && Alike(Places(j), Free(j.c), s, o)
    ensures Comes(j, o, w) && w.pc == Start(j, k + 1) && Alike(Places(j), Free(j.c), s, w)
    ensures w.regs[j.c.gsr] == Num(j.p.sig[y])
  {
    hide Alike, Places, Output, Walk, AlarmPlace, Start, AllPutIn, EligibleAt, Once, WellSigned, Find, Gets, Head,
      After, Ready, CodeAt, SameProgram;
    BehindStands(j, k);
    BehindWalks(j, k, x, y, o);
    var a := Walk(After(j, k), o).state;
    CodeRuns(j.c, Output(j), AlarmPlace(j), o.pc, After(j, k), o);
    w := a.(pc := Start(j, k + 1));
    SameProgramAlike(j, s, o, a, Start(j, k + 1));
  }

  lemma {:induction false} LabelApart(j: Job, k: nat)
    requires Eligible(j) && k < |j.lines| && j.lines[k].Label? && j.lines[k].l in j.labels
    ensures Silent(j, k) && Silent(j, k + 1)
  {
    assert EligibleAt(j, k);
  }

  lemma {:induction false} BehindWalks(j: Job, k: nat, x: Node, y: Node, o: State)
    requires Eligible(j) && k < |j.lines| && j.lines[k] == Label(y) && y in j.labels && Ready(j, x, y, o)
    ensures var w := Walk(After(j, k), o);
      w.Through? && SameProgram(j.c, o, w.state) && w.state.regs[j.c.gsr] == Num(j.p.sig[y])
  {
    hide Walk, WellSigned, Xor, EligibleAt, Once, Find, Check, Compared, Distance;
    var p := j.p;
    if y == p.start {
      WalkOne(Literal(j.c.gsr, Number(p.sig[y])), o);
    } else {
      var d := FirstDistance(p, x, y);
      ComparedMeans(p, x, y, d);
      PredsSome(p, y);
      CheckOutcome(j.c, p, y, p.sig[x], d, o);
    }
  }

  lemma {:induction false} PredsSome(p: Plan, y: Node)
    requires WellSigned(p) && y in p.preds
    ensures |p.preds[y]| >= 1
  {
  }

  // ----- One step -----

  /** From the label of a block to its first line. */
  lemma {:induction false} LabelRuns(j: Job, k: nat, x: Node, y: Node, s: State, o: State) returns (w: State)
    requires Eligible(j) && k < |j.lines| && j.lines[k] == Label(y) && y in j.labels && Ready(j, x, y, o)
    requires o.pc == Head(j, k) && Alike(Places(j), Free(j.c), s, o)
    ensures Comes(j, o, w) && Alike(Places(j), Free(j.c), s, w)
    ensures w.pc == Start(j, k + 1) && w.regs[j.c.gsr] == Num(j.p.sig[y])
    ensures Covering(j.lines, j.labels, k + 1) == Some(y) && Silent(j, k + 1)
  {
    hide Alike, Places, Output, AlarmPlace, Start, EligibleAt, Once, WellSigned, Xor, Find, Gets, Head;
    LabelApart(j, k);
    NotErrorLine(j, k);
    RowPlace(j, k);
    var a := Next(o);
    LabelQuiet(j, k);
    GetsStep(Output(j), AlarmPlace(j), o, a);
    MovedPc(Places(j), Free(j.c), s, o, a.pc);
    w := BehindRuns(j, k, x, y, s, a);
    GetsTrans(Output(j), AlarmPlace(j), o, a, w);
  }

  lemma {:induction false} LabelQuiet(j: Job, k: nat)
    requires Eligible(j) && k < |j.lines| && j.lines[k].Label? && j.lines[k].l in j.labels
    ensures Head(j, k) != AlarmPlace(j) && Head(j, k) + 1 != AlarmPlace(j)
  {
    hide Output, AlarmPlace, Start, ErrorLine, Eligible, Head;
    EligiblePlacing(j);
    LabelApart(j, k);
    NotErrorLine(j, k);
    NotErrorLine(j, k + 1);
    RowPlace(j, k);
    AlarmOutside(j, k);
  }

  lemma {:induction false} EnteringFollowed(j: Job, x: Node, y: Node, s: State, o: State) returns (w: State)
    requires Eligible(j) && Related(j, Entering(x, y), s, o)
    ensures Comes(j, o, w) && Step(j.lines, s) == Some(Next(s)) && Related(j, Inside(y), Next(s), w)
  {
    hide Alike, Places, AlarmPlace, Start, EligibleAt, Once, WellSigned, Xor, Find, Gets, Head, Covering;
    w := LabelRuns(j, s.pc, x, y, s, o);
    NextAlike(Places(j), Free(j.c), s, w);
    MovedPc(Places(j), Free(j.c), Next(s), Next(w), w.pc);
  }

  /** The label of the next block is reached from the block before it. */
  lemma {:induction false} FallFollowed(j: Job, x: Node, y: Node, s: State, o: State) returns (w: State)
    requires Eligible(j) && Related(j, Inside(x), s, o)
    requires s.pc < |j.lines| && j.lines[s.pc] == Label(y) && y in j.labels
    requires y == j.p.start || Follows(j.p, x, Fall(y))
    ensures Comes(j, o, w) && Step(j.lines, s) == Some(Next(s)) && Related(j, Inside(y), Next(s), w)
  {
    hide Alike, Places, AlarmPlace, Start, EligibleAt, Once, WellSigned, Xor, Find, Gets, Head, Covering, FirstDistance;
    var a := AheadRuns(j, s.pc, x, s, o);
    SingleFirst(j.p, x, y);
    w := LabelRuns(j, s.pc, x, y, s, a);
    GetsTrans(Output(j), AlarmPlace(j), o, a, w);
    NextAlike(Places(j), Free(j.c), s, w);
    MovedPc(Places(j), Free(j.c), Next(s), Next(w), w.pc);
  }

  lemma {:induction false} SingleFirst(p: Plan, x: Node, y: Node)
    requires WellSigned(p)
    ensures y in p.preds ==> |p.preds[y]| >= 1 && (x in p.preds[y] && |p.preds[y]| == 1 ==> p.preds[y][0] == x)
  {
  }

  /** The instruction of the line is executed on both sides. */
  lemma {:induction false} StepEffect(j: Job, s: State, a: State) returns (v: State)
    requires Eligible(j) && Alike(Places(j), Free(j.c), s, a) && s.pc < |j.lines| && a.pc == Head(j, s.pc)
    requires j.lines[s.pc].Op? && Step(j.lines, s).Some?
    requires j.lines[s.pc].cond.None? || Evaluate(j.lines[s.pc].cond.value, s.flags)
    ensures Step(Output(j), a) == Some(v) && Perform(j.lines, j.lines[s.pc].ins, s) == Step(j.lines, s)
    ensures Effect(j, j.lines[s.pc].ins, s, a) && Perform(Output(j), j.lines[s.pc].ins, a) == Some(v)
    ensures v.regs[j.c.gsr] == a.regs[j.c.gsr] && v.regs[j.c.d] == a.regs[j.c.d]
  {
    hide Alike, Places, Start, EligibleAt, Once, WellSigned, Find, Head, Perform, Evaluate, Output;
    RowPlace(j, s.pc);
    FlagsAlike(Places(j), Free(j.c), s, a);
    SameEffect(j, s, a);
    v := Perform(Output(j), j.lines[s.pc].ins, a).value;
  }

  lemma {:induction false} CoveringOn(j: Job, k: nat)
    requires Eligible(j) && k < |j.lines| && !Starts(j.lines[k], j.labels) && !Ends(j.lines[k], j.labels)
    ensures Covering(j.lines, j.labels, k + 1) == Covering(j.lines, j.labels, k) && After(j, k) == []
  {
  }

  /** One step of the output at a line that goes on. */
  lemma {:induction false} LineOn(j: Job, s: State, a: State) returns (v: State)
    requires Eligible(j) && Alike(Places(j), Free(j.c), s, a) && s.pc < |j.lines| && a.pc == Head(j, s.pc)
    requires Step(j.lines, s).Some? && WayOf(j.lines, j.all, s) == Stays
    ensures Step(Output(j), a) == Some(v) && v.pc == a.pc + 1 && Alike(Places(j), Free(j.c), Step(j.lines, s).value, v)
    ensures v.regs[j.c.gsr] == a.regs[j.c.gsr]
  {
    hide Alike, Places, Start, EligibleAt, Once, WellSigned, Find, Head, Perform, Evaluate, Output, Returns, Eligible,
      Ahead, After;
    EligiblePlacing(j);
    RowPlace(j, s.pc);
    StaysOn(j.lines, j.all, s);
    FlagsAlike(Places(j), Free(j.c), s, a);
    NextAlike(Places(j), Free(j.c), s, a);
    if j.lines[s.pc].Op? && (j.lines[s.pc].cond.None? || Evaluate(j.lines[s.pc].cond.value, s.flags)) {
      v := StepEffect(j, s, a);
    } else {
      v := Next(a);
    }
  }

  /** Behind a line that neither starts nor ends a block. */
  lemma {:induction false} StayPlace(j: Job, k: nat)
    requires Eligible(j) && k < |j.lines| && !Starts(j.lines[k], j.labels) && !Ends(j.lines[k], j.labels)
    requires Silent(j, k) && Silent(j, k + 1)
    ensures Covering(j.lines, j.labels, k + 1) == Covering(j.lines, j.labels, k)
    ensures Start(j, k + 1) == Head(j, k) + 1 != AlarmPlace(j)
  {
    hide AlarmPlace, Start, Eligible, Head, Covering, Output, After, Ahead, ErrorLine, Silent;
    EligiblePlacing(j);
    CoveringOn(j, k);
    RowPlace(j, k);
    NotErrorLine(j, k + 1);
    NotErrorLine(j, k);
    AlarmOutside(j, k);
  }

  /** A step within a block. */
  lemma {:induction false} StayFollowed(j: Job, x: Node, s: State, o: State) returns (w: State)
    requires Eligible(j) && Related(j, Inside(x), s, o) && s.pc < |j.lines| && Step(j.lines, s).Some?
    requires WayOf(j.lines, j.all, s) == Stays && Passes(j, Inside(x), s)
    ensures Comes(j, o, w) && Related(j, Inside(x), Step(j.lines, s).value, w)
  {
    hide Alike, Places, AlarmPlace, Start, EligibleAt, Once, WellSigned, Find, Gets, Head, Covering, Step, Output,
      Returns;
    var a := AheadRuns(j, s.pc, x, s, o);
    w := LineOn(j, s, a);
    StaysOn(j.lines, j.all, s);
    StayCovers(j, s);
    StayPlace(j, s.pc);
    GetsStep(Output(j), AlarmPlace(j), a, w);
    GetsTrans(Output(j), AlarmPlace(j), o, a, w);
  }

  lemma {:induction false} StayCovers(j: Job, s: State)
    requires Eligible(j) && s.pc < |j.lines| && Step(j.lines, s).Some?
    requires WayOf(j.lines, j.all, s) == Stays && !j.lines[s.pc].Mark?
    ensures !Starts(j.lines[s.pc], j.labels) && !Ends(j.lines[s.pc], j.labels)
  {
    hide Perform, Evaluate;
    StaysOn(j.lines, j.all, s);
  }

  /** A jump to the label of another block. */
  lemma {:induction false} JumpFollowed(j: Job, x: Node, s: State, o: State) returns (w: State)
    requires Eligible(j) && Related(j, Inside(x), s, o) && s.pc < |j.lines| && Step(j.lines, s).Some?
    requires WayOf(j.lines, j.all, s).Takes? && Passes(j, Inside(x), s)
    requires var e := WayOf(j.lines, j.all, s).exit; e.Goto? || e.Zero?
    ensures Comes(j, o, w)
    ensures Related(j, Entering(x, ControlRuns.Destination(WayOf(j.lines, j.all, s).exit)), Step(j.lines, s).value, w)
  {
    hide Alike, Places, AlarmPlace, Start, EligibleAt, Once, WellSigned, Find, Gets, Head, Covering, Output, Perform,
      Evaluate,
      FirstDistance, Returns;
    var e := WayOf(j.lines, j.all, s).exit;
    var a := AheadRuns(j, s.pc, x, s, o);
    var y := ControlRuns.Destination(e);
    Arrives(j.lines, j.all, s);
    JumpingLine(j, s);
    w := StepEffect(j, s, a);
    SingleFirst(j.p, x, y);
    LabelQuiet(j, Step(j.lines, s).value.pc);
    GetsStep(Output(j), AlarmPlace(j), a, w);
    GetsTrans(Output(j), AlarmPlace(j), o, a, w);
  }

  lemma {:induction false} JumpingLine(j: Job, s: State)
    requires s.pc < |j.lines| && Step(j.lines, s).Some? && WayOf(j.lines, j.all, s).Takes?
    requires var e := WayOf(j.lines, j.all, s).exit; e.Goto? || e.Zero?
    ensures var e, line := WayOf(j.lines, j.all, s).exit, j.lines[s.pc];
      line.Op? && (line.cond.None? || Evaluate(line.cond.value, s.flags)) && JumpsTo(line.ins, s) &&
      line.ins.l == ControlRuns.Destination(e) &&
      (e.Goto? && e.y in j.labels ==> LeadsTo(line, j.labels) == Some(e.y))
  {
    hide Perform, Evaluate;
  }

  /** A return lands behind a label, and so in the output at the check behind it. */
  lemma {:induction false} ReturnFollowed(j: Job, x: Node, s: State, o: State) returns (w: State)
    requires Eligible(j) && Related(j, Inside(x), s, o) && s.pc < |j.lines| && Step(j.lines, s).Some?
    requires WayOf(j.lines, j.all, s).Takes? && WayOf(j.lines, j.all, s).exit.Return? && Passes(j, Inside(x), s)
    ensures Comes(j, o, w)
    ensures Related(j, Inside(WayOf(j.lines, j.all, s).exit.y), Step(j.lines, s).value, w)
  {
    hide Alike, Places, AlarmPlace, Start, EligibleAt, Once, WellSigned, Find, Gets, Head, Covering, Output, Perform,
      Evaluate,
      FirstDistance, Returns;
    var y := WayOf(j.lines, j.all, s).exit.y;
    var t := Step(j.lines, s).value;
    var a := AheadRuns(j, s.pc, x, s, o);
    Arrives(j.lines, j.all, s);
    ReturningLine(j, s);
    var v := StepEffect(j, s, a);
    SingleFirst(j.p, x, y);
    CheckedSome(j, t.pc - 1, y);
    LandedPlace(j, t.pc);
    LabelQuiet(j, t.pc - 1);
    GetsStep(Output(j), AlarmPlace(j), a, v);
    w := BehindRuns(j, t.pc - 1, x, y, t, v);
    GetsTrans(Output(j), AlarmPlace(j), a, v, w);
    GetsTrans(Output(j), AlarmPlace(j), o, a, w);
    CoversBehind(j, t.pc - 1);
  }

  lemma {:induction false} ReturningLine(j: Job, s: State)
    requires s.pc < |j.lines| && Step(j.lines, s).Some? && WayOf(j.lines, j.all, s).Takes?
    requires WayOf(j.lines, j.all, s).exit.Return?
    ensures var line := j.lines[s.pc];
      line.Op? && (line.cond.None? || Evaluate(line.cond.value, s.flags)) && Returns(line.ins) && !JumpsTo(line.ins, s)
  {
    hide Perform, Evaluate;
  }

  lemma {:induction false} CheckedSome(j: Job, k: nat, y: Node)
    requires Eligible(j) && k < |j.lines| && j.lines[k] == Label(y) && y in j.labels
    requires y == j.p.start || y in j.p.preds
    ensures After(j, k) != []
  {
    hide Distance;
  }

  lemma {:induction false} CoversBehind(j: Job, k: nat)
    requires k < |j.lines| && Starts(j.lines[k], j.labels)
    ensures Covering(j.lines, j.labels, k + 1) == Some(j.lines[k].l)
  {
  }

  /** Whatever the step, the output follows. */
  lemma {:induction false} StepFollowed(j: Job, w: Where, s: State, o: State) returns (v: State)
    requires Eligible(j) && Related(j, w, s, o) && s.pc < |j.lines| && Step(j.lines, s).Some? && Passes(j, w, s)
    ensures Comes(j, o, v) && Related(j, Onward(j.lines, j.all, w, s), Step(j.lines, s).value, v)
  {
    hide Alike, Places, Start, EligibleAt, Once, WellSigned, Find, Gets, Head, Covering, Output, Perform, Evaluate,
      Follows,
      Comes, Ready, Returns;
    match w
    case Entering(x, y) => v := EnteringFollowed(j, x, y, s, o);
    case Inside(x) =>
      if WayOf(j.lines, j.all, s) == Stays {
        v := StayFollowed(j, x, s, o);
      } else {
        var e := WayOf(j.lines, j.all, s).exit;
        ExitKinds(j, s);
        if e.Fall? {
          v := FallFollowed(j, x, e.y, s, o);
        } else if e.Return? {
          v := ReturnFollowed(j, x, s, o);
        } else {
          v := JumpFollowed(j, x, s, o);
        }
      }
  }

  lemma {:induction false} ExitKinds(j: Job, s: State)
    requires s.pc < |j.lines| && Step(j.lines, s).Some? && WayOf(j.lines, j.all, s).Takes?
    ensures var e := WayOf(j.lines, j.all, s).exit;
      (e.Fall? ==> j.lines[s.pc] == Label(e.y)) && (e.Fall? || e.Return? || e.Goto? || e.Zero?)
  {
    hide Perform, Evaluate;
  }

  // ----- Runs -----

  lemma {:induction false} RunSteps(prog: seq<Line>, s: State, n: nat)
    requires n > 0 && s.pc < |prog|
    ensures Run(prog, s, n) == match Step(prog, s) case None => None case Some(t) => Run(prog, t, n - 1)
  {
    hide Step;
  }

  lemma {:induction false} RunStands(prog: seq<Line>, s: State, n: nat)
    requires s.pc >= |prog| && Run(prog, s, n).Some?
    ensures Run(prog, s, n) == Some(s)
  {
    if n > 0 && s.pc == |prog| {
      RunStands(prog, s, n - 1);
    }
  }

  /** A run that keeps to edges the checks can follow is followed by the output line by line, which never
      reports an error: it has the same data, is at the same place, and its signature register holds the
      signature of the block. */
  lemma {:induction false} LinesPass(j: Job, w: Where, s: State, o: State, n: nat) returns (v: State)
    requires Eligible(j) && Related(j, w, s, o) && Legal(j, w, s, n) && Run(j.lines, s, n).Some?
    ensures Comes(j, o, v)
    ensures Related(j, WhereAfter(j.lines, j.all, w, s, n), Run(j.lines, s, n).value, v)
    decreases n
  {
    hide Eligible, Related, Passes, Step, Gets, Onward, Run, Output, AlarmPlace;
    if n == 0 || s.pc >= |j.lines| {
      EligiblePlacing(j);
      RunNothing(j.lines, s, n);
      v := o;
      GetsSelf(Output(j), AlarmPlace(j), o);
    } else {
      EligiblePlacing(j);
      RunSteps(j.lines, s, n);
      var t := Step(j.lines, s).value;
      var a := StepFollowed(j, w, s, o);
      v := LinesPass(j, Onward(j.lines, j.all, w, s), t, a, n - 1);
      GetsTrans(Output(j), AlarmPlace(j), o, a, v);
    }
  }

  lemma {:induction false} RunNothing(prog: seq<Line>, s: State, n: nat)
    requires n == 0 || s.pc >= |prog|
    requires Run(prog, s, n).Some?
    ensures Run(prog, s, n) == Some(s)
  {
    if n > 0 {
      RunStands(prog, s, n);
    }
  }

  /** From the label of the main function, where the signature register is loaded. */
  lemma {:induction false} LinesPassFromStart(j: Job, s: State, o: State, n: nat) returns (v: State)
    requires Eligible(j) && s.pc < |j.lines| && j.lines[s.pc] == Label(j.p.start) && o.pc == Head(j, s.pc)
    requires Alike(Places(j), Free(j.c), s, o)
    requires Legal(j, Entering(j.p.start, j.p.start), s, n) && Run(j.lines, s, n).Some?
    ensures Comes(j, o, v) && Alike(Places(j), Free(j.c), Run(j.lines, s, n).value, v)
  {
    hide Legal, Alike, Comes, Run, WhereAfter, EligibleAt, Once, WellSigned, Find, Places, Head;
    v := LinesPass(j, Entering(j.p.start, j.p.start), s, o, n);
  }
}
