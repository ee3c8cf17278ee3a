/** What the replacement pass leaves single: every other executed line of its output tolerates a skip. */
module ReplacementCoverage {
  import opened Arithmetic
  import opened Thumb
  import opened SkipTolerance
  import opened ReplacementPass
  import opened ReplacementLayout
  import opened ReplacementTolerance
  import opened ReplacementPlaces
  import opened ReplacementData
  import opened ReplacementSimulation
  import CodeAddresses

  // ---- Instructions -----------------------------------------------------------------------------

  /** An instruction that does not name the spare register stays single exactly when it is not listed; of any
      other, all lines stand in pairs but the label a call returns to. */
  lemma {:induction false} SingleIff(ins: Instruction, temp: Spare, n: nat)
    requires temp !in Tokens(ins)
    ensures Unlisted(ins) <==> ExpandOp(ins, temp, n) == [Once(Do(ins))]
    ensures !Unlisted(ins) ==> forall u | u in ExpandOp(ins, temp, n) :: u.Twice? || u == Once(Label(n))
  {
    hide ExpandKnown, ExpandLoadMany, ExpandStoreMany, MoveBase, Tokens;
    PassKnows(ins);
    if Unlisted(ins) {
      UnlistedSingle(ins, temp, n);
    } else {
      ListedTwice(ins, temp, n);
      assert !Once(Do(ins)).Twice?;
    }
  }

  lemma {:induction false} UnlistedSingle(ins: Instruction, temp: Spare, n: nat)
    requires temp !in Tokens(ins) && Unlisted(ins)
    ensures ExpandOp(ins, temp, n) == [Once(Do(ins))]
  {
    hide Tokens;
  }

  lemma {:induction false} ListedTwice(ins: Instruction, temp: Spare, n: nat)
    requires temp !in Tokens(ins) && Known(ins)
    ensures forall u | u in ExpandOp(ins, temp, n) :: u.Twice? || u == Once(Label(n))
  {
    hide ExpandKnown, ExpandLoadMany, ExpandStoreMany, MoveBase, Tokens, Known;
    KnownTwice(ins, temp);
    match ins
    case LoadMany(db, base, wb, list, pc) => ManyTwice(db, base, wb, list, pc, temp);
    case StoreMany(db, base, wb, list) => ManyTwice(db, base, wb, list, false, temp);
    case Push(list) => ManyTwice(true, SP, true, list, false, temp);
    case Pop(list, pc) => ManyTwice(false, SP, true, list, pc, temp);
    case Load(_, _, base, index) => BaseTwice(base, if index.Offset? then 0 else index.n, temp);
    case Store(_, _, base, index) => BaseTwice(base, if index.Offset? then 0 else index.n, temp);
    case _ =>
  }

  lemma {:induction false} KnownTwice(ins: Instruction, temp: Spare)
    requires Known(ins)
    ensures forall u | u in ExpandKnown(ins, temp) :: u.Twice?
  {
    hide Known, MentionsCarry, WithFirst;
  }

  lemma {:induction false} ManyTwice(db: bool, base: Reg, wb: bool, list: seq<Reg>, pc: bool, temp: Spare)
    ensures forall u | u in ExpandLoadMany(db, base, wb, list, pc, temp) :: u.Twice?
    ensures forall u | u in ExpandStoreMany(db, base, wb, list, temp) :: u.Twice?
  {
  }

  lemma {:induction false} BaseTwice(base: Reg, n: Word, temp: Spare)
    ensures forall u | u in MoveBase(Add, base, n, temp) :: u.Twice?
  {
  }

  /** A branch outside blocks stays single exactly under the conditions the script does not list. */
  lemma {:induction false} BranchSingleIff(c: Condition, l: nat, temp: Spare, n: nat)
    ensures Expand(Op(Some(c), Branch(l)), temp, false, n) ==
      if c in {MI, PL, VS, VC, GE, LT, LE} then [Once(Op(Some(c), Branch(l)))] else [Twice(Op(Some(c), Branch(l)))]
  {
  }

  // ---- The output -------------------------------------------------------------------------------

  /** What may stand alone outside ignored sections: labels and marks, unlisted instructions, branches under
      unlisted conditions, and branches to the fresh labels of IT blocks. */
  predicate MayBeSingle(line: Line) {
    line.Op? ==>
      || Unlisted(line.ins)
      || (line.ins.Branch? && line.cond.Some? &&
          (line.cond.value in {MI, PL, VS, VC, GE, LT, LE} || line.ins.l >= 1000))
  }

  /** The line stands behind a start mark with no end mark between. */
  predicate Ignored(source: seq<Line>, k: nat) {
    exists j | 0 <= j < k <= |source| :: source[j].IgnoreStart? && forall i | j < i < k :: !source[i].IgnoreEnd?
  }

  lemma {:induction false} ScanIgnores(source: seq<Line>, temp: Spare, k: nat)
    requires Assembled(source, temp) && k <= |source|
    ensures ScanAt(source, temp, k).ignore <==> Ignored(source, k)
  {
    if k > 0 {
      ScanIgnores(source, temp, k - 1);
      ScanState(source, temp, k - 1);
      assert FitsAt(source, temp, k - 1);
      IgnoredNext(source, k - 1);
    }
  }

  lemma {:induction false} IgnoredNext(source: seq<Line>, k: nat)
    requires k < |source|
    ensures Ignored(source, k + 1) <==> source[k].IgnoreStart? || (Ignored(source, k) && !source[k].IgnoreEnd?)
  {
    if source[k].IgnoreStart? {
      assert k < k + 1;
    } else if Ignored(source, k + 1) {
      var j :| 0 <= j < k + 1 && source[j].IgnoreStart? && forall i | j < i < k + 1 :: !source[i].IgnoreEnd?;
      assert forall i | j < i < k :: !source[i].IgnoreEnd?;
      assert !source[k].IgnoreEnd?;
    }
  }

  /** Line `p` of the output belongs to line `k` of the source. */
  predicate Belongs(source: seq<Line>, temp: Spare, k: nat, p: nat) {
    k < |source| && At(source, temp, k) <= p < At(source, temp, k + 1)
  }

  lemma {:induction false} FreshFrom(source: seq<Line>, temp: Spare, k: nat)
    requires k <= |source|
    ensures ScanAt(source, temp, k).n >= FIRST_LABEL
  {
    if k > 0 {
      FreshFrom(source, temp, k - 1);
    }
  }

  /** The units that one source line leaves single. */
  lemma {:induction false} EmitSingles(st: Scan, line: Line, temp: Spare, u: Unit)
    requires Fits(st, line) && EligibleLine(st, line, temp) && st.n >= FIRST_LABEL && (st.block.Some? ==> !st.ignore)
    requires u in Emit(st, line, temp) && u.Once?
    ensures MayBeSingle(u.line) || (st.ignore && u.line == line)
  {
    hide ExpandOp, Unlisted, Replaceable, Tokens, ExpandConditional;
    if line.Op? && !st.ignore {
      SingleIff(line.ins, temp, st.n);
      if st.block.None? && line.cond.Some? {
        BranchSingleIff(line.cond.value, line.ins.l, temp, st.n);
      }
    }
  }

  lemma {:induction false} AloneInUnits(units: seq<Unit>, q: nat) returns (u: Unit)
    requires q < |Flat(units)| && Roles(units)[q] == Alone
    ensures u in units && u.Once? && Flat(units)[q] == u.line
  {
    var first := Lines(units[0]);
    if q < |first| {
      u := units[0];
    } else {
      u := AloneInUnits(units[1..], q - |first|);
    }
  }

  lemma {:induction false} NothingMade(source: seq<Line>, temp: Spare)
    ensures Flat(Made(source, temp, 0)) == []
  {
  }

  lemma {:induction false} AloneUpTo(source: seq<Line>, temp: Spare, k: nat, p: nat) returns (j: nat)
    requires Eligible(source, temp) && k <= |source| && p < |Flat(Made(source, temp, k))|
    requires Roles(Made(source, temp, k))[p] == Alone
    ensures j < k && Belongs(source, temp, j, p)
    ensures var line := Flat(Made(source, temp, k))[p];
      MayBeSingle(line) || (Ignored(source, j) && line == source[j])
  {
    hide Emit, EligibleLine, Flat, Roles, Fits, MayBeSingle, Ignored;
    NothingMade(source, temp);
    assert FitsAt(source, temp, k - 1) && EligibleAt(source, temp, k - 1);
    var st, made := ScanAt(source, temp, k - 1), Made(source, temp, k - 1);
    var units := Emit(st, source[k - 1], temp);
    FlatSum(made, units);
    if p < |Flat(made)| {
      j := AloneUpTo(source, temp, k - 1, p);
    } else {
      j := k - 1;
      var u := AloneInUnits(units, p - |Flat(made)|);
      ScanState(source, temp, k - 1);
      ScanIgnores(source, temp, k - 1);
      FreshFrom(source, temp, k - 1);
      EmitSingles(st, source[k - 1], temp, u);
    }
  }

  /** A line of the output that stands alone is one that may be single, or an ignored line of the source. */
  lemma {:induction false} AloneLines(source: seq<Line>, temp: Spare, p: nat) returns (k: nat)
    requires Eligible(source, temp) && p < |Output(source, temp)| && OutputRoles(source, temp)[p] == Alone
    ensures Belongs(source, temp, k, p)
    ensures var line := Output(source, temp)[p]; MayBeSingle(line) || (Ignored(source, k) && line == source[k])
  {
    hide Eligible, Belongs, MayBeSingle, Ignored, Made;
    k := AloneUpTo(source, temp, |source|, p);
  }

  // ---- Skips ------------------------------------------------------------------------------------

  /** An executed line of the output that the pass has to protect. */
  predicate Protected(source: seq<Line>, temp: Spare, p: nat) {
    && p < |Output(source, temp)| && !MayBeSingle(Output(source, temp)[p])
    && forall k | 0 <= k < |source| && Ignored(source, k) :: !Belongs(source, temp, k, p)
  }

  lemma {:induction false} ProtectedIsPaired(source: seq<Line>, temp: Spare, p: nat)
    requires Eligible(source, temp) && Protected(source, temp, p)
    ensures p < |Output(source, temp)| && OutputRoles(source, temp)[p] != Alone
  {
    hide Eligible, MayBeSingle, Ignored, Output, OutputRoles;
    if OutputRoles(source, temp)[p] == Alone {
      var k := AloneLines(source, temp, p);
    }
  }

  /** Skipping any protected line on the way: after at most one step the run is where it gets to without the
      skip in one or two steps. */
  lemma {:induction false} OneSkipAnywhere(source: seq<Line>, temp: Spare, s: State, n: nat) returns (i: nat, j: nat)
    requires Eligible(source, temp)
    requires s.pc in Landings(source, temp) && CodeAddresses.StateAmong(Landings(source, temp), s)
    requires s.pc <= |source| && Run(Output(source, temp), Loaded(source, temp, s), n).Some?
    requires Protected(source, temp, Run(Output(source, temp), Loaded(source, temp, s), n).value.pc)
    ensures i <= 1 && 1 <= j <= 2
    ensures var out := Output(source, temp);
      var x := Run(out, Loaded(source, temp, s), n).value;
      Run(out, Next(x), i) == Run(out, x, j)
  {
    hide Eligible, Protected, Output, OutputRoles, Run, Entries, CodeAddresses.StateAmong, Paired, Loaded, Landings,
      Orderly;
    var o := Loaded(source, temp, s);
    ProtectedIsPaired(source, temp, Run(Output(source, temp), o, n).value.pc);
    OutputPaired(source, temp);
    LoadedOrderly(source, temp, s);
    i, j := OneSkip(Output(source, temp), OutputRoles(source, temp), o, n);
  }

  /** Skips fall on protected lines only, and never on two in a row. */
  predicate Spaced(source: seq<Line>, temp: Spare, st: State, skips: seq<bool>)
    decreases |skips|
  {
    skips == [] || Halted(Output(source, temp), st) ||
    (&& (skips[0] ==> Protected(source, temp, st.pc) && (|skips| > 1 ==> !skips[1]))
     && match FaultyStep(Output(source, temp), st, skips[0])
        case None => true
        case Some(t) => Spaced(source, temp, t, skips[1..]))
  }

  lemma {:induction false} SpacedIsTolerable(source: seq<Line>, temp: Spare, st: State, skips: seq<bool>)
    requires Eligible(source, temp) && Spaced(source, temp, st, skips)
    ensures Tolerable(Output(source, temp), OutputRoles(source, temp), st, skips)
    decreases |skips|
  {
    hide Eligible, Protected, Output, OutputRoles, FaultyStep, Halted;
    if skips != [] && !Halted(Output(source, temp), st) {
      if skips[0] {
        ProtectedIsPaired(source, temp, st.pc);
      }
      if FaultyStep(Output(source, temp), st, skips[0]).Some? {
        SpacedIsTolerable(source, temp, FaultyStep(Output(source, temp), st, skips[0]).value, skips[1..]);
      }
    }
  }

  /** A source that runs to its end, with the conditions of its block lines coming out as at the IT, becomes an
      output that ends alike however many protected lines are skipped, never two in a row. */
  lemma {:induction false} ProtectedRuns(source: seq<Line>, temp: Spare, s: State, n: nat) returns (m: nat, end: State)
    requires Eligible(source, temp)
    requires s.pc in Landings(source, temp) && CodeAddresses.StateAmong(Landings(source, temp), s)
    requires Steady(source, temp, Latched(s, false), n)
    requires Run(source, s, n).Some? && Halted(source, Run(source, s, n).value)
    ensures Halted(Output(source, temp), end)
    ensures Alike(Places(source, temp), {temp}, Run(source, s, n).value, end)
    ensures s.pc <= |source|
    ensures forall skips | Spaced(source, temp, Loaded(source, temp, s), skips) ::
      FaultyRun(Output(source, temp), Loaded(source, temp, s), skips).Some? &&
      (|skips| >= m ==> FaultyRun(Output(source, temp), Loaded(source, temp, s), skips) == Some(end))
  {
    hide Eligible, Landings, CodeAddresses.StateAmong, Alike, FaultyRun, Tolerable, Loaded, Steady, Run,
      Output, OutputRoles, Places, Spaced;
    m, end := HardenedRuns(source, temp, s, n);
    forall skips | Spaced(source, temp, Loaded(source, temp, s), skips)
      ensures Tolerable(Output(source, temp), OutputRoles(source, temp), Loaded(source, temp, s), skips)
    {
      SpacedIsTolerable(source, temp, Loaded(source, temp, s), skips);
    }
  }
}
