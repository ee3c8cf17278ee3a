/** A program in which instructions stand in identical pairs keeps its meaning when instructions are
    skipped, as long as never both halves of a pair are. */
module SkipTolerance {
  import opened Arithmetic
  import opened CodeAddresses
  import opened Replayable
  import opened Thumb

  /** The part a line plays: alone, or one half of a pair. */
  datatype Role = Alone | Leading | Trailing

  /** Pairs are adjacent copies of an instruction that may be executed twice. */
  predicate Paired(prog: seq<Line>, roles: seq<Role>) {
    && |roles| == |prog|
    && (forall p | 0 <= p < |prog| :: roles[p] == Leading ==>
          p + 1 < |prog| && roles[p + 1] == Trailing && prog[p + 1] == prog[p] && prog[p].Op? && Replays(prog[p].ins))
    && (forall p | 0 <= p < |prog| :: roles[p] == Trailing ==> p > 0 && roles[p - 1] == Leading)
  }

  /** The places between pairs. */
  function Entries(roles: seq<Role>): set<nat> {
    set p: nat | 0 <= p <= |roles| && (p < |roles| ==> roles[p] != Trailing)
  }

  /** A faulty step: the instruction is executed, or skipped over. */
  function FaultyStep(prog: seq<Line>, st: State, skip: bool): Option<State> {
    if Halted(prog, st) then Some(st)
    else if skip then Some(Next(st))
    else Step(prog, st)
  }

  function FaultyRun(prog: seq<Line>, st: State, skips: seq<bool>): Option<State>
    decreases |skips|
  {
    if skips == [] then Some(st)
    else match FaultyStep(prog, st, skips[0])
      case None => None
      case Some(t) => FaultyRun(prog, t, skips[1..])
  }

  /** Skips fall on paired instructions only, and after a skipped leading half the trailing one runs. */
  predicate Tolerable(prog: seq<Line>, roles: seq<Role>, st: State, skips: seq<bool>)
    requires |roles| == |prog|
    decreases |skips|
  {
    skips == [] || Halted(prog, st) ||
    (&& (skips[0] ==> st.pc < |prog| && roles[st.pc] != Alone)
     && (skips[0] && roles[st.pc] == Leading && |skips| > 1 ==> !skips[1])
     && match FaultyStep(prog, st, skips[0])
        case None => true
        case Some(t) => Tolerable(prog, roles, t, skips[1..]))
  }

  /** A step that executes a pair once. */
  function PairStep(prog: seq<Line>, roles: seq<Role>, st: State): Option<State>
    requires |roles| == |prog|
  {
    match Advance(prog, st)
    case None => None
    case Some(t) => if st.pc < |prog| && roles[st.pc] == Leading && t.pc == st.pc + 1 then Some(Next(t)) else Some(t)
  }

  function PairRun(prog: seq<Line>, roles: seq<Role>, st: State, n: nat): Option<State>
    requires |roles| == |prog|
    decreases n
  {
    if n == 0 then Some(st)
    else match PairStep(prog, roles, st)
      case None => None
      case Some(t) => PairRun(prog, roles, t, n - 1)
  }

  /** Between pairs, all code addresses pointing between pairs. */
  ghost predicate Orderly(roles: seq<Role>, st: State) {
    st.pc in Entries(roles) && StateAmong(Entries(roles), st)
  }

  /** How a faulty run stands to the run that executes each pair once: at the same place, between the
      halves of a pair that took effect, or between the halves of a pair still to take effect. */
  datatype Phase = Level | Done | Owing

  ghost predicate Stands(prog: seq<Line>, f: State, g: State, phase: Phase) {
    match phase
    case Level => f == g
    case Done => Step(prog, g) == Some(f) && f.pc == g.pc + 1
    case Owing => f == Next(g)
  }

  ghost predicate InStep(prog: seq<Line>, roles: seq<Role>, f: State, g: State, phase: Phase)
    requires |roles| == |prog|
  {
    Orderly(roles, g) && Stands(prog, f, g, phase) &&
    (phase != Level ==> g.pc < |prog| && roles[g.pc] == Leading)
  }

  lemma {:induction false} TrailingIsOp(prog: seq<Line>, roles: seq<Role>, i: nat)
    requires Paired(prog, roles) && i < |prog| && roles[i] == Trailing
    ensures prog[i].Op? && i > 0 && prog[i - 1].Op?
  {
    var p := i - 1;
    assert roles[p] == Leading && prog[p + 1] == prog[p];
  }

  lemma {:induction false} LabelsAreEntries(prog: seq<Line>, roles: seq<Role>)
    requires Paired(prog, roles)
    ensures forall i: nat | i < |prog| && prog[i].Label? :: i in Entries(roles) && Settle(prog, i) in Entries(roles)
  {
    forall i: nat | i < |prog| && roles[i] == Trailing ensures prog[i].Op? {
      TrailingIsOp(prog, roles, i);
    }
    forall i: nat | i < |prog| && prog[i].Label? ensures Settle(prog, i) in Entries(roles) {
      SettledEntry(prog, roles, i);
    }
  }

  lemma {:induction false} BeforeTrailing(prog: seq<Line>, roles: seq<Role>, i: nat)
    requires Paired(prog, roles) && i < |prog|
    ensures i + 1 < |prog| && roles[i + 1] == Trailing ==> roles[i] == Leading
  {
    assert i + 1 < |prog| ==> roles[i + 1] == Trailing ==> roles[i + 1 - 1] == Leading;
  }

  lemma {:induction false} SettledEntry(prog: seq<Line>, roles: seq<Role>, i: nat)
    requires Paired(prog, roles) && i in Entries(roles)
    ensures Settle(prog, i) in Entries(roles)
    decreases |prog| - i
  {
    if i < |prog| && prog[i].Label? {
      BeforeTrailing(prog, roles, i);
      SettledEntry(prog, roles, i + 1);
    }
  }

  /** A step from between pairs: on to the next line, or to a place between pairs. */
  lemma {:induction false} StepOrderly(prog: seq<Line>, roles: seq<Role>, g: State)
    requires Paired(prog, roles) && Orderly(roles, g) && g.pc < |prog| && Step(prog, g).Some?
    ensures var t := Step(prog, g).value;
      StateAmong(Entries(roles), t) && (t.pc == g.pc + 1 || t.pc in Entries(roles))
    ensures roles[g.pc] != Leading ==> g.pc + 1 in Entries(roles)
    ensures roles[g.pc] == Leading ==> g.pc + 1 !in Entries(roles) && g.pc + 2 in Entries(roles)
  {
    hide Perform, StateAmong;
    LabelsAreEntries(prog, roles);
    assert g.pc + 1 < |prog| ==> roles[g.pc + 1] == Trailing ==> roles[g.pc + 1 - 1] == Leading;
    assert g.pc + 2 < |prog| ==> roles[g.pc + 2] == Trailing ==> roles[g.pc + 2 - 1] == Leading;
    match prog[g.pc]
    case Op(cond, ins) =>
      if cond.None? || Evaluate(cond.value, g.flags) {
        if roles[g.pc] != Leading {
          SettledEntry(prog, roles, g.pc + 1);
        }
        PerformAmong(prog, Entries(roles), ins, g);
      } else {
        SameData(Entries(roles), g);
      }
    case _ => SameData(Entries(roles), g);
  }

  lemma {:induction false} SameData(ok: set<nat>, st: State)
    requires StateAmong(ok, st)
    ensures StateAmong(ok, Next(st))
  {
  }

  lemma {:induction false} JumpsToEntry(prog: seq<Line>, roles: seq<Role>, ins: Instruction, g: State, t: State)
    requires Paired(prog, roles) && Orderly(roles, g)
    requires Replays(ins) && !Falls(ins) && Perform(prog, ins, g) == Some(t)
    ensures t.pc in Entries(roles) ||
      (ins.BranchZero? && g.regs[ins.r].Num? && (g.regs[ins.r].n == 0) == ins.nonzero && t == Next(g))
  {
    hide LoadedMany, LoadFrom, RegistersAmong, MemoryAmong, Entries;
    LabelsAreEntries(prog, roles);
    match ins
    case BranchReg(r) => RegisterAmong(Entries(roles), g.regs, r);
    case LoadMany(db, base, wb, list, pc) =>
      LoadAmong(Entries(roles), g.mem, BlockStart(db, g.regs[base].n, BytesMoved(list, pc)) + 4 * |list|, 4);
    case _ =>
  }

  /** The trailing half of a pair whose leading half went on to it does nothing. */
  lemma {:induction false} TrailingHalf(prog: seq<Line>, roles: seq<Role>, g: State, t: State)
    requires Paired(prog, roles) && Orderly(roles, g) && g.pc < |prog| && roles[g.pc] == Leading
    requires Step(prog, g) == Some(t) && t.pc == g.pc + 1
    ensures Step(prog, t) == Some(Next(t))
  {
    hide Perform, StateAmong, Replays;
    StepOrderly(prog, roles, g);
    var ins := prog[g.pc].ins;
    var cond := prog[g.pc].cond;
    if cond.Some? && !Evaluate(cond.value, g.flags) {
    } else if Falls(ins) {
      PerformAgain(prog, ins, g, t);
    } else {
      JumpsToEntry(prog, roles, ins, g, t);
      NotTaken(prog, ins, g);
    }
  }

  lemma {:induction false} NotTaken(prog: seq<Line>, ins: Instruction, g: State)
    requires ins.BranchZero? && g.regs[ins.r].Num? && (g.regs[ins.r].n == 0) == ins.nonzero
    ensures Perform(prog, ins, Next(g)) == Some(Next(Next(g)))
  {
  }

  lemma {:induction false} DataLater(op: AluOp, s: bool, rd: Reg, rn: Reg, y: Operand, g: State)
    ensures match PerformData(op, s, rd, rn, y, g)
      case None => PerformData(op, s, rd, rn, y, Next(g)) == None
      case Some(t) => t.pc == g.pc + 1 && PerformData(op, s, rd, rn, y, Next(g)) == Some(Next(t))
  {
    hide Second, DataValue;
  }

  lemma {:induction false} MoveLater(ext: Extension, s: bool, rd: Reg, y: Operand, g: State)
    ensures match PerformMove(ext, s, rd, y, g)
      case None => PerformMove(ext, s, rd, y, Next(g)) == None
      case Some(t) => t.pc == g.pc + 1 && PerformMove(ext, s, rd, y, Next(g)) == Some(Next(t))
  {
    hide Second, Extend;
  }

  lemma {:induction false} LoadLater(size: Size, rt: Reg, base: Reg, index: Index, g: State)
    ensures match PerformLoad(size, rt, base, index, g)
      case None => PerformLoad(size, rt, base, index, Next(g)) == None
      case Some(t) => t.pc == g.pc + 1 && PerformLoad(size, rt, base, index, Next(g)) == Some(Next(t))
  {
    hide Second, LoadFrom;
    assert Addressed(base, index, Next(g)) == Addressed(base, index, g);
  }

  lemma {:induction false} StoreLater(size: Size, rt: Reg, base: Reg, index: Index, g: State)
    ensures match PerformStore(size, rt, base, index, g)
      case None => PerformStore(size, rt, base, index, Next(g)) == None
      case Some(t) => t.pc == g.pc + 1 && PerformStore(size, rt, base, index, Next(g)) == Some(Next(t))
  {
    hide Second, StoreTo;
    assert Addressed(base, index, Next(g)) == Addressed(base, index, g);
  }

  lemma {:induction false} ManyLater(prog: seq<Line>, ins: Instruction, g: State)
    requires ins.LoadMany? || ins.StoreMany?
    ensures match Perform(prog, ins, g)
      case None => Perform(prog, ins, Next(g)) == None
      case Some(t) =>
        if Falls(ins) then t.pc == g.pc + 1 && Perform(prog, ins, Next(g)) == Some(Next(t))
        else Perform(prog, ins, Next(g)) == Some(t)
  {
    hide LoadedMany, LoadFrom, StoreTo;
  }

  lemma {:induction false} FlagsLater(prog: seq<Line>, ins: Instruction, g: State)
    requires ins.Compare? || ins.Test?
    ensures match Perform(prog, ins, g)
      case None => Perform(prog, ins, Next(g)) == None
      case Some(t) => t.pc == g.pc + 1 && Perform(prog, ins, Next(g)) == Some(Next(t))
  {
    hide Second, Logical, CompareFlags;
  }

  lemma {:induction false} PlainLater(prog: seq<Line>, ins: Instruction, g: State)
    requires ins.Insert? || ins.Extract? || ins.ReadFlags? || ins.WriteFlags?
    ensures match Perform(prog, ins, g)
      case None => Perform(prog, ins, Next(g)) == None
      case Some(t) => t.pc == g.pc + 1 && Perform(prog, ins, Next(g)) == Some(Next(t))
  {
    hide Thumb.Inserted, Extracted, FlagWord, WordFlags;
  }

  /** The kinds with a function of their own. */
  lemma {:induction false} OwnLater(prog: seq<Line>, ins: Instruction, g: State)
    requires ins.Data? || ins.Short? || ins.Move? || ins.Load? || ins.Store?
    ensures match Perform(prog, ins, g)
      case None => Perform(prog, ins, Next(g)) == None
      case Some(t) => t.pc == g.pc + 1 && Perform(prog, ins, Next(g)) == Some(Next(t))
  {
    hide PerformData, PerformMove, PerformLoad, PerformStore;
    match ins
    case Data(op, s, rd, rn, y) => DataLater(op, s, rd, rn, y, g);
    case Short(op, s, rd, y) => DataLater(op, s, rd, rd, y, g);
    case Move(ext, s, rd, y) => MoveLater(ext, s, rd, y, g);
    case Load(size, rt, base, index) => LoadLater(size, rt, base, index, g);
    case Store(size, rt, base, index) => StoreLater(size, rt, base, index, g);
  }

  lemma {:induction false} JumpLater(prog: seq<Line>, ins: Instruction, g: State)
    requires Replays(ins)
    requires ins.Branch? || ins.Call? || ins.BranchReg? || ins.CallReg? || ins.BranchZero? || ins.Literal? ||
             ins.AddressOf?
    ensures match Perform(prog, ins, g)
      case None => Perform(prog, ins, Next(g)) == None
      case Some(t) =>
        if Falls(ins) || (ins.BranchZero? && (g.regs[ins.r].n == 0) == ins.nonzero)
        then t.pc == g.pc + 1 && Perform(prog, ins, Next(g)) == Some(Next(t))
        else Perform(prog, ins, Next(g)) == Some(t)
  {
    hide Settle, Find;
  }

  /** The same instruction one line later does the same to the data, and goes on or jumps as before. */
  lemma {:induction false} PerformLater(prog: seq<Line>, ins: Instruction, g: State)
    requires Replays(ins)
    ensures match Perform(prog, ins, g)
      case None => Perform(prog, ins, Next(g)) == None
      case Some(t) =>
        if Falls(ins) || (ins.BranchZero? && (g.regs[ins.r].n == 0) == ins.nonzero)
        then t.pc == g.pc + 1 && Perform(prog, ins, Next(g)) == Some(Next(t))
        else Perform(prog, ins, Next(g)) == Some(t)
  {
    hide Perform, OperandTokens, IndexTokens;
    match ins
    case Data(_, _, _, _, _) => OwnLater(prog, ins, g);
    case Short(_, _, _, _) => OwnLater(prog, ins, g);
    case Move(_, _, _, _) => OwnLater(prog, ins, g);
    case Load(_, _, _, _) => OwnLater(prog, ins, g);
    case Store(_, _, _, _) => OwnLater(prog, ins, g);
    case LoadMany(_, _, _, _, _) => ManyLater(prog, ins, g);
    case StoreMany(_, _, _, _) => ManyLater(prog, ins, g);
    case Compare(_, _) => FlagsLater(prog, ins, g);
    case Test(_, _) => FlagsLater(prog, ins, g);
    case Insert(_, _, _, _) => PlainLater(prog, ins, g);
    case Extract(_, _, _, _, _) => PlainLater(prog, ins, g);
    case ReadFlags(_) => PlainLater(prog, ins, g);
    case WriteFlags(_) => PlainLater(prog, ins, g);
    case _ => JumpLater(prog, ins, g);
  }

  /** Skipping the leading half only delays the pair to its trailing half. */
  lemma {:induction false} OwedHalf(prog: seq<Line>, roles: seq<Role>, g: State)
    requires Paired(prog, roles) && Orderly(roles, g) && g.pc < |prog| && roles[g.pc] == Leading
    ensures Step(prog, Next(g)) == PairStep(prog, roles, g)
  {
    hide Perform, StateAmong, Replays;
    var ins := prog[g.pc].ins;
    var cond := prog[g.pc].cond;
    if cond.None? || Evaluate(cond.value, g.flags) {
      PerformLater(prog, ins, g);
      if Perform(prog, ins, g).Some? && !Falls(ins) {
        StepOrderly(prog, roles, g);
        JumpsToEntry(prog, roles, ins, g, Perform(prog, ins, g).value);
      }
    }
  }

  function Lag(phase: Phase): nat {
    if phase == Level then 0 else 1
  }

  /** One faulty step: the paired run follows by no step or by one. */
  lemma {:induction false} StepTracks(prog: seq<Line>, roles: seq<Role>, f: State, g: State, phase: Phase, skip: bool)
    returns (phase': Phase, n: nat)
    requires Paired(prog, roles) && InStep(prog, roles, f, g, phase) && !Halted(prog, f)
    requires skip ==> phase != Owing && f.pc < |prog| && roles[f.pc] != Alone
    ensures n <= 1
    ensures match FaultyStep(prog, f, skip)
      case None => PairRun(prog, roles, g, n) == None
      case Some(f') =>
        && PairRun(prog, roles, g, n).Some?
        && InStep(prog, roles, f', PairRun(prog, roles, g, n).value, phase')
        && (phase' == Owing ==> skip && roles[f.pc] == Leading)
        && 1 + Lag(phase) <= 2 * n + Lag(phase')
  {
    hide Perform, StateAmong, Replays;
    n := 1;
    phase' := Level;
    assert PairRun(prog, roles, g, 1) == PairStep(prog, roles, g);
    if g.pc < |prog| && Step(prog, g).Some? {
      StepOrderly(prog, roles, g);
      SameData(Entries(roles), Step(prog, g).value);
    }
    match phase
    case Done => TrailingHalf(prog, roles, g, f);
    case Owing => OwedHalf(prog, roles, g);
    case Level =>
      if skip {
        n, phase' := 0, Owing;
        TrailingIsNoEntry(prog, roles, g.pc);
      } else if g.pc < |prog| && roles[g.pc] == Leading && Step(prog, g).Some? && Step(prog, g).value.pc == g.pc + 1 {
        n, phase' := 0, Done;
      }
  }

  lemma {:induction false} TrailingIsNoEntry(prog: seq<Line>, roles: seq<Role>, p: nat)
    requires |roles| == |prog| && p < |prog| && p in Entries(roles)
    ensures roles[p] != Trailing
  {
  }

  lemma {:induction false} PairRunSplit(prog: seq<Line>, roles: seq<Role>, g: State, m: nat, n: nat)
    requires |roles| == |prog|
    ensures PairRun(prog, roles, g, m + n) ==
      match PairRun(prog, roles, g, m) case None => None case Some(h) => PairRun(prog, roles, h, n)
    decreases m
  {
    hide PairStep;
    if m > 0 && PairStep(prog, roles, g).Some? {
      PairRunSplit(prog, roles, PairStep(prog, roles, g).value, m - 1, n);
    }
  }

  lemma {:induction false} HaltedStays(prog: seq<Line>, roles: seq<Role>, h: State, n: nat)
    requires |roles| == |prog| && Halted(prog, h)
    ensures PairRun(prog, roles, h, n) == Some(h)
  {
    hide Step;
    if n > 0 {
      HaltedStays(prog, roles, h, n - 1);
    }
  }

  lemma {:induction false} HaltedIdles(prog: seq<Line>, f: State, skips: seq<bool>)
    requires Halted(prog, f)
    ensures FaultyRun(prog, f, skips) == Some(f)
    decreases |skips|
  {
    hide Step;
    if skips != [] {
      HaltedIdles(prog, f, skips[1..]);
    }
  }

  lemma {:induction false} HaltedIsLevel(prog: seq<Line>, roles: seq<Role>, f: State, g: State, phase: Phase)
    requires Paired(prog, roles) && InStep(prog, roles, f, g, phase) && Halted(prog, f)
    ensures f == g && phase == Level
  {
  }

  /** Every tolerable faulty run is in step with the paired run, which keeps up with it: at least one
      of its steps for two faulty ones, until the end. */
  lemma {:induction false} RunTracks(prog: seq<Line>, roles: seq<Role>, f: State, g: State, phase: Phase,
                                     skips: seq<bool>)
    returns (phase': Phase, n: nat)
    requires Paired(prog, roles) && InStep(prog, roles, f, g, phase) && Tolerable(prog, roles, f, skips)
    requires phase == Owing && skips != [] ==> !skips[0]
    ensures n <= |skips|
    ensures phase' == Owing ==> if skips == [] then phase == Owing else skips[|skips| - 1]
    ensures match FaultyRun(prog, f, skips)
      case None => PairRun(prog, roles, g, n) == None
      case Some(f') =>
        && PairRun(prog, roles, g, n).Some?
        && InStep(prog, roles, f', PairRun(prog, roles, g, n).value, phase')
        && (Halted(prog, f') || |skips| + Lag(phase) <= 2 * n + Lag(phase'))
    decreases |skips|
  {
    hide Step, StateAmong, PairStep, Stands, Orderly;
    n, phase' := 0, phase;
    if Halted(prog, f) {
      HaltedIdles(prog, f, skips);
      HaltedIsLevel(prog, roles, f, g, phase);
    } else if skips != [] {
      var p, m := StepTracks(prog, roles, f, g, phase, skips[0]);
      n, phase' := m, Level;
      if FaultyStep(prog, f, skips[0]).Some? {
        var k;
        phase', k := RunTracks(prog, roles, FaultyStep(prog, f, skips[0]).value, PairRun(prog, roles, g, m).value, p,
                               skips[1..]);
        PairRunSplit(prog, roles, g, m, k);
        n := m + k;
      }
    }
  }

  function NoSkips(n: nat): (r: seq<bool>)
    ensures |r| == n
  {
    seq(n, _ => false)
  }

  lemma {:induction false} NoSkipsRun(prog: seq<Line>, roles: seq<Role>, st: State, n: nat)
    requires |roles| == |prog|
    ensures FaultyRun(prog, st, NoSkips(n)) == Run(prog, st, n)
    ensures Tolerable(prog, roles, st, NoSkips(n))
    decreases n
  {
    hide Step;
    if n > 0 {
      assert NoSkips(n)[1..] == NoSkips(n - 1);
      if Advance(prog, st).Some? {
        NoSkipsRun(prog, roles, Advance(prog, st).value, n - 1);
      }
    }
  }

  lemma {:induction false} PairMeets(prog: seq<Line>, roles: seq<Role>, st: State, m: nat, k: nat)
    requires |roles| == |prog|
    requires PairRun(prog, roles, st, m).Some? && Halted(prog, PairRun(prog, roles, st, m).value)
    ensures PairRun(prog, roles, st, k).Some?
    ensures k >= m || Halted(prog, PairRun(prog, roles, st, k).value) ==>
      PairRun(prog, roles, st, k) == PairRun(prog, roles, st, m)
  {
    hide PairRun;
    if k >= m {
      PairRunSplit(prog, roles, st, m, k - m);
      HaltedStays(prog, roles, PairRun(prog, roles, st, m).value, k - m);
    } else {
      PairRunSplit(prog, roles, st, k, m - k);
      if Halted(prog, PairRun(prog, roles, st, k).value) {
        HaltedStays(prog, roles, PairRun(prog, roles, st, k).value, m - k);
      }
    }
  }

  /** When the paired run ends, every run with tolerable skips stays defined, and has ended in the very
      same state after twice as many steps. */
  lemma {:induction false} PairedEnds(prog: seq<Line>, roles: seq<Role>, st: State, m: nat, skips: seq<bool>)
    requires Paired(prog, roles) && Orderly(roles, st)
    requires PairRun(prog, roles, st, m).Some? && Halted(prog, PairRun(prog, roles, st, m).value)
    requires Tolerable(prog, roles, st, skips)
    ensures FaultyRun(prog, st, skips).Some?
    ensures Halted(prog, FaultyRun(prog, st, skips).value) || |skips| >= 2 * m + 2 ==>
      FaultyRun(prog, st, skips) == PairRun(prog, roles, st, m)
  {
    hide Step, StateAmong, PairStep, Orderly, FaultyRun, Tolerable, PairRun;
    var phase, k := RunTracks(prog, roles, st, st, Level, skips);
    PairMeets(prog, roles, st, m, k);
    if FaultyRun(prog, st, skips).Some? {
      var f := FaultyRun(prog, st, skips).value;
      if Halted(prog, f) {
        HaltedIsLevel(prog, roles, f, PairRun(prog, roles, st, k).value, phase);
      }
    }
  }

  /** When the program runs to its end without faults, every run with tolerable skips stays defined,
      has ended after twice as many steps, and ends in the very same state. */
  lemma {:induction false} SkipsAreHarmless(prog: seq<Line>, roles: seq<Role>, st: State, n: nat, skips: seq<bool>)
    requires Paired(prog, roles) && Orderly(roles, st)
    requires Run(prog, st, n).Some? && Halted(prog, Run(prog, st, n).value)
    requires Tolerable(prog, roles, st, skips)
    ensures FaultyRun(prog, st, skips).Some?
    ensures Halted(prog, FaultyRun(prog, st, skips).value) || |skips| >= 2 * n + 2 ==>
      FaultyRun(prog, st, skips) == Run(prog, st, n)
  {
    hide Step, StateAmong, PairStep, Orderly, FaultyRun, Tolerable, Run, PairRun;
    var end := Run(prog, st, n).value;
    NoSkipsRun(prog, roles, st, n);
    var phase, m := RunTracks(prog, roles, st, st, Level, NoSkips(n));
    HaltedIsLevel(prog, roles, end, PairRun(prog, roles, st, m).value, phase);
    PairedEnds(prog, roles, st, m, skips);
  }

  /** One skipped instruction: after at most one step the run is where the unskipped run gets to in
      one or two steps, all registers, flags and memory the same. */
  lemma {:induction false} OneSkip(prog: seq<Line>, roles: seq<Role>, st: State, n: nat) returns (i: nat, j: nat)
    requires Paired(prog, roles) && Orderly(roles, st)
    requires Run(prog, st, n).Some?
    requires var s := Run(prog, st, n).value; s.pc < |prog| && roles[s.pc] != Alone
    ensures i <= 1 && 1 <= j <= 2
    ensures var s := Run(prog, st, n).value; Run(prog, Next(s), i) == Run(prog, s, j)
  {
    hide Perform, StateAmong, Replays, Entries;
    var s := Run(prog, st, n).value;
    NoSkipsRun(prog, roles, st, n);
    var phase, k := RunTracks(prog, roles, st, st, Level, NoSkips(n));
    var g := PairRun(prog, roles, st, k).value;
    match phase
    case Done =>
      TrailingHalf(prog, roles, g, s);
      i, j := 0, 1;
    case Level =>
      TrailingIsNoEntry(prog, roles, s.pc);
      OwedHalf(prog, roles, s);
      i, j := 1, 1;
      if Step(prog, s).Some? && Step(prog, s).value.pc == s.pc + 1 {
        TrailingHalf(prog, roles, s, Step(prog, s).value);
        j := 2;
      }
  }
}
