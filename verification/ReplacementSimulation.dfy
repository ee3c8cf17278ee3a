/** Every run of the source is followed by the output of the replacement pass, and hence by every run
    of the output in which instructions are skipped. */
module ReplacementSimulation {
  import opened Arithmetic
  import opened Thumb
  import opened CodeAddresses
  import opened Replayable
  import opened SkipTolerance
  import opened ReplacementPass
  import opened ReplacementLayout
  import opened ReplacementTolerance
  import opened ReplacementData
  import opened ReplacementPlaces
  import opened ReplacementMeaning

  // ----- Where the output stands -----

  predicate Level(source: seq<Line>, temp: Spare, k: nat, q: nat)
    requires k <= |source|
  {
    Settle(Output(source, temp), q) == Settle(Output(source, temp), At(source, temp, k))
  }

  function Waiting(b: Block): nat {
    if b.thens > 0 then b.l else b.l + 1
  }

  /** The lines of a block that are taken when its condition held at the IT instruction, or did not. */
  predicate Takes(b: Block, held: bool) {
    (b.thens > 0) == held
  }

  /** Outside blocks and before block lines that are taken, the output is level with the source.  Before the
      other lines of a block it waits at the label behind them. */
  predicate Beside(source: seq<Line>, temp: Spare, k: nat, held: bool, q: nat)
    requires k <= |source|
  {
    match ScanAt(source, temp, k).block
    case None => Level(source, temp, k, q)
    case Some(b) =>
      if Takes(b, held) then Level(source, temp, k, q)
      else Find(Output(source, temp), Waiting(b)) == Some(q)
  }

  ghost predicate Related(source: seq<Line>, temp: Spare, s: State, held: bool, o: State) {
    && s.pc <= |source|
    && Alike(Places(source, temp), {temp}, s, o)
    && StateAmong(Landings(source, temp), s)
    && Beside(source, temp, s.pc, held, o.pc)
  }

  // ----- The lines of the output -----

  predicate StartsWithOp(units: seq<Unit>) {
    units != [] && units[0].line.Op?
  }

  lemma {:induction false} KnownStarts(ins: Instruction, temp: Spare)
    ensures StartsWithOp(ExpandKnown(ins, temp))
  {
    hide Known, MentionsCarry, WithFirst;
  }

  lemma {:induction false} ManyStarts(db: bool, base: Reg, wb: bool, list: seq<Reg>, pc: bool, temp: Spare)
    ensures StartsWithOp(ExpandLoadMany(db, base, wb, list, pc, temp))
    ensures StartsWithOp(ExpandStoreMany(db, base, wb, list, temp))
  {
  }

  lemma {:induction false} OpStarts(ins: Instruction, temp: Spare, n: nat)
    ensures StartsWithOp(ExpandOp(ins, temp, n))
  {
    hide ExpandKnown, ExpandLoadMany, ExpandStoreMany;
    KnownStarts(ins, temp);
    match ins
    case LoadMany(db, base, wb, list, pc) => ManyStarts(db, base, wb, list, pc, temp);
    case StoreMany(db, base, wb, list) => ManyStarts(db, base, wb, list, false, temp);
    case Push(list) => ManyStarts(true, SP, true, list, false, temp);
    case Pop(list, pc) => ManyStarts(false, SP, true, list, pc, temp);
    case _ =>
  }

  /** A line that is no label starts with a unit that is none. */
  lemma {:induction false} StartsSolid(st: Scan, line: Line, temp: Spare)
    requires Fits(st, line) && !line.Label?
    ensures Emit(st, line, temp) != [] && !Emit(st, line, temp)[0].line.Label?
  {
    hide ExpandOp;
    if line.Op? {
      OpStarts(line.ins, temp, st.n);
    }
  }

  lemma {:induction false} SolidStart(source: seq<Line>, temp: Spare, k: nat)
    requires Eligible(source, temp) && k < |source| && !source[k].Label?
    ensures FitsAt(source, temp, k)
    ensures At(source, temp, k) < |Output(source, temp)| && !Output(source, temp)[At(source, temp, k)].Label?
    ensures var made, j := Emit(ScanAt(source, temp, k), source[k], temp), From(source, temp, k);
      && made != [] && UnitsAt(source, temp, j, made) && Pos(Units(source, temp), j) == At(source, temp, k)
      && From(source, temp, k + 1) == j + |made| && Pos(Units(source, temp), j + |made|) == At(source, temp, k + 1)
  {
    hide Emit, Fits, Made, ScanAt, Lines, Roles;
    assert FitsAt(source, temp, k);
    StartsSolid(ScanAt(source, temp, k), source[k], temp);
    LineUnits(source, temp, k);
    LinePlaces(source, temp, k + 1);
    var j := From(source, temp, k);
    FirstUnit(source, temp, j, Emit(ScanAt(source, temp, k), source[k], temp));
    UnitAt(Units(source, temp), j);
  }

  /** Labels in the way are passed. */
  lemma {:induction false} SettleRuns(source: seq<Line>, temp: Spare, o: State)
    requires Eligible(source, temp)
    ensures Gets(source, temp, o, o.(pc := Settle(Output(source, temp), o.pc)))
    decreases |Output(source, temp)| - o.pc
  {
    hide Eligible, Made, Reaches;
    var out, roles := Output(source, temp), OutputRoles(source, temp);
    OutputPaired(source, temp);
    if o.pc < |out| && out[o.pc].Label? {
      PassLabel(out, roles, o);
      SettleRuns(source, temp, Next(o));
      GetsTrans(source, temp, o, Next(o), o.(pc := Settle(out, o.pc)));
    } else {
      ReachesSelf(out, roles, o);
    }
  }

  lemma {:induction false} PassLabel(prog: seq<Line>, roles: seq<Role>, o: State)
    requires Paired(prog, roles) && o.pc < |prog| && prog[o.pc].Label?
    ensures Reaches(prog, roles, o, Next(o))
  {
    ReachesStep(prog, roles, o, Next(o));
  }

  /** From a level place the output gets to the first unit of the line. */
  lemma {:induction false} LevelRuns(source: seq<Line>, temp: Spare, k: nat, o: State)
    requires Eligible(source, temp) && k < |source| && !source[k].Label? && Level(source, temp, k, o.pc)
    ensures var w := o.(pc := At(source, temp, k));
      Gets(source, temp, o, w) && AtUnit(source, temp, From(source, temp, k), w)
  {
    hide Eligible, Made, Emit, Gets, Output;
    SolidStart(source, temp, k);
    SettleRuns(source, temp, o);
  }

  // ----- Landings -----

  lemma {:induction false} LandingLabels(source: seq<Line>, temp: Spare)
    requires Eligible(source, temp)
    ensures forall i: nat | i < |source| && source[i].Label? ::
      i in Landings(source, temp) && Settle(source, i) in Landings(source, temp)
  {
    hide Eligible, Emit;
    forall i: nat | i < |source| && source[i].Label?
      ensures i in Landings(source, temp) && Settle(source, i) in Landings(source, temp)
    {
      ClosedAtLabel(source, temp, i);
      SettledPlace(source, temp, i);
    }
  }

  /** Behind a branching line no block is open. */
  lemma {:induction false} ClosedBehind(source: seq<Line>, temp: Spare, k: nat)
    requires Eligible(source, temp) && k < |source| && source[k].Op? && !Falls(source[k].ins)
    ensures k + 1 in Landings(source, temp)
  {
    hide Replaceable, Tokens, Emit;
    assert FitsAt(source, temp, k) && EligibleAt(source, temp, k);
  }

  lemma {:induction false} PerformLands(source: seq<Line>, temp: Spare, s: State)
    requires Eligible(source, temp) && StateAmong(Landings(source, temp), s)
    requires s.pc < |source| && source[s.pc].Op? && Perform(source, source[s.pc].ins, s).Some?
    ensures StateAmong(Landings(source, temp), Perform(source, source[s.pc].ins, s).value)
  {
    hide Eligible, StateAmong, Perform, Landings, Emit;
    var ins := source[s.pc].ins;
    LandingLabels(source, temp);
    if ins.Call? || ins.CallReg? {
      ClosedBehind(source, temp, s.pc);
      SettledPlace(source, temp, s.pc + 1);
    }
    PerformAmong(source, Landings(source, temp), ins, s);
  }

  /** The address behind a call, in the output. */
  lemma {:induction false} ReturnPlace(source: seq<Line>, temp: Spare, s: State, next: nat)
    requires Eligible(source, temp) && s.pc < |source| && source[s.pc].Op? && next <= |Units(source, temp)|
    requires Level(source, temp, s.pc + 1, Pos(Units(source, temp), next))
    ensures Returning(source, temp, source[s.pc].ins, s, next)
  {
    hide Eligible, Landings, Emit, Output, Made;
    var ins := source[s.pc].ins;
    if ins.Call? || ins.CallReg? {
      ClosedBehind(source, temp, s.pc);
      SettledPlace(source, temp, s.pc + 1);
    }
  }

  lemma {:induction false} FacingIsBeside(source: seq<Line>, temp: Spare, k: nat, held: bool, q: nat)
    requires Facing(source, temp, k, q)
    ensures k <= |source| && Beside(source, temp, k, held, q)
  {
  }

  // ----- Lines outside blocks -----

  lemma {:induction false} LabelLine(source: seq<Line>, temp: Spare, s: State, held: bool, o: State)
    requires Eligible(source, temp) && Related(source, temp, s, held, o)
    requires s.pc < |source| && source[s.pc].Label?
    ensures Related(source, temp, Next(s), held, o) && Gets(source, temp, o, o)
  {
    hide Eligible, Emit, Alike, StateAmong, Landings, Places;
    ClosedAtLabel(source, temp, s.pc);
    LabelMoves(source, temp, s.pc);
    ReachesSelf(Output(source, temp), OutputRoles(source, temp), o);
    NextKeeps(source, temp, s, o, o.pc);
  }

  lemma {:induction false} NextKeeps(source: seq<Line>, temp: Spare, s: State, o: State, pc: nat)
    requires Alike(Places(source, temp), {temp}, s, o) && StateAmong(Landings(source, temp), s)
    ensures Alike(Places(source, temp), {temp}, Next(s), o.(pc := pc)) && StateAmong(Landings(source, temp), Next(s))
  {
    hide Places, Landings;
  }

  /** Marks, and IT instructions in ignored sections. */
  lemma {:induction false} QuietLine(source: seq<Line>, temp: Spare, s: State, held: bool, o: State) returns (w: State)
    requires Eligible(source, temp) && Related(source, temp, s, held, o)
    requires s.pc < |source| && ScanAt(source, temp, s.pc).block.None? && !source[s.pc].Label? && !source[s.pc].Op?
    requires source[s.pc].It? ==> ScanAt(source, temp, s.pc).ignore
    ensures Related(source, temp, Next(s), held, w) && Gets(source, temp, o, w)
  {
    hide Eligible, Alike, StateAmong, Landings, Places, Made, Reaches, Settle, ExpandOp, Find, Perform, Evaluate;
    var k := s.pc;
    SolidStart(source, temp, k);
    LevelRuns(source, temp, k, o);
    var j, a := From(source, temp, k), o.(pc := At(source, temp, k));
    FirstUnit(source, temp, j, Emit(ScanAt(source, temp, k), source[k], temp));
    QuietUnit(Units(source, temp), j, a);
    w := a.(pc := At(source, temp, k + 1));
    GetsTrans(source, temp, o, a, w);
    NextKeeps(source, temp, s, o, w.pc);
  }

  /** A unit that repeats the line as it is, condition and all. */
  lemma {:induction false} PlainLine(source: seq<Line>, temp: Spare, s: State, held: bool, o: State) returns (w: State)
    requires Eligible(source, temp) && Related(source, temp, s, held, o)
    requires s.pc < |source| && ScanAt(source, temp, s.pc).block.None? && source[s.pc].Op?
    requires ScanAt(source, temp, s.pc).ignore || source[s.pc].cond.Some?
    requires Step(source, s).Some?
    ensures Related(source, temp, Step(source, s).value, held, w) && Gets(source, temp, o, w)
  {
    hide Eligible, Alike, StateAmong, Landings, Places, Made, Reaches, Emit, Perform, Tokens;
    var k := s.pc;
    SolidStart(source, temp, k);
    LevelRuns(source, temp, k, o);
    var j, a := From(source, temp, k), o.(pc := At(source, temp, k));
    var Op(cond, ins) := source[k];
    PlainUnits(source, temp, k);
    FirstUnit(source, temp, j, Emit(ScanAt(source, temp, k), source[k], temp));
    FlagsAlike(Places(source, temp), {temp}, s, o);
    if cond.Some? && !Evaluate(cond.value, s.flags) {
      UnitPassed(Units(source, temp), j, cond.value, ins, a);
      w := a.(pc := At(source, temp, k + 1));
      NextKeeps(source, temp, s, o, w.pc);
    } else {
      ReturnPlace(source, temp, s, j + 1);
      MovedPc(Places(source, temp), {temp}, s, o, a.pc);
      w := SameRuns(source, temp, j, cond, ins, s, a);
      PerformLands(source, temp, s);
      AfterClosed(source, temp, s, held, Perform(source, ins, s).value, j + 1, w);
    }
    GetsTrans(source, temp, o, a, w);
  }

  /** What such a line becomes. */
  lemma {:induction false} PlainUnits(source: seq<Line>, temp: Spare, k: nat)
    requires Eligible(source, temp) && k < |source| && FitsAt(source, temp, k)
    requires ScanAt(source, temp, k).block.None? && source[k].Op?
    requires ScanAt(source, temp, k).ignore || source[k].cond.Some?
    ensures temp !in Tokens(source[k].ins)
    ensures var made := Emit(ScanAt(source, temp, k), source[k], temp);
      |made| == 1 && made[0].line == source[k] && (source[k].ins.Call? || source[k].ins.CallReg? ==> made[0].Once?)
    ensures ScanAt(source, temp, k + 1).block == None
  {
    hide Replaceable, ExpandOp;
    assert EligibleAt(source, temp, k);
  }

  /** Having done what an instruction outside blocks does, the output is related again. */
  lemma {:induction false} AfterClosed(source: seq<Line>, temp: Spare, s: State, held: bool, t: State, next: nat,
                                       w: State)
    requires s.pc < |source| && source[s.pc].Op? && ScanAt(source, temp, s.pc + 1).block == None
    requires Followed(source, temp, source[s.pc].ins, s, t, next, w)
    requires next <= |Units(source, temp)| && Level(source, temp, s.pc + 1, Pos(Units(source, temp), next))
    requires StateAmong(Landings(source, temp), t)
    ensures Related(source, temp, t, held, w)
  {
    hide Alike, StateAmong, Landings, Places, Output, Made, Facing;
    if Jumps(source[s.pc].ins, s) {
      FacingIsBeside(source, temp, t.pc, held, w.pc);
    }
  }

  /** An instruction outside blocks that the pass replaces. */
  lemma {:induction false} ReplacedLine(source: seq<Line>, temp: Spare, s: State, held: bool, o: State)
    returns (w: State)
    requires Eligible(source, temp) && Related(source, temp, s, held, o)
    requires s.pc < |source| && ScanAt(source, temp, s.pc).block.None? && source[s.pc].Op?
    requires !ScanAt(source, temp, s.pc).ignore && source[s.pc].cond.None?
    requires Step(source, s).Some?
    ensures Related(source, temp, Step(source, s).value, held, w) && Gets(source, temp, o, w)
  {
    hide Eligible, Alike, StateAmong, Landings, Places, Made, Output, Reaches, Emit, Perform, Tokens, ExpandOp,
      Replaceable, Followed, Returning, Find, Settle, Gets;
    var k := s.pc;
    var ins := source[k].ins;
    var st, j, a := ScanAt(source, temp, k), From(source, temp, k), o.(pc := At(source, temp, k));
    SolidStart(source, temp, k);
    LevelRuns(source, temp, k, o);
    ReplacedUnits(source, temp, k);
    MovedPc(Places(source, temp), {temp}, s, o, a.pc);
    if ins.Call? {
      ReturnLabel(source, temp, k);
    }
    var next := j + |ExpandOp(ins, temp, st.n)|;
    ReturnPlace(source, temp, s, next);
    w := OpRuns(source, temp, j, ins, st.n, s, a);
    PerformLands(source, temp, s);
    AfterClosed(source, temp, s, held, Perform(source, ins, s).value, next, w);
    GetsTrans(source, temp, o, a, w);
  }

  lemma {:induction false} ReplacedUnits(source: seq<Line>, temp: Spare, k: nat)
    requires Eligible(source, temp) && k < |source| && FitsAt(source, temp, k)
    requires ScanAt(source, temp, k).block.None? && source[k].Op?
    requires !ScanAt(source, temp, k).ignore && source[k].cond.None?
    ensures temp !in Tokens(source[k].ins) && Replaceable(source[k].ins)
    ensures Emit(ScanAt(source, temp, k), source[k], temp) == ExpandOp(source[k].ins, temp, ScanAt(source, temp, k).n)
    ensures ScanAt(source, temp, k + 1).block == None
  {
    hide Replaceable, ExpandOp;
    assert EligibleAt(source, temp, k);
  }

  /** The return label of a call is found behind its three pairs. */
  lemma {:induction false} ReturnLabel(source: seq<Line>, temp: Spare, k: nat)
    requires Eligible(source, temp) && k < |source| && FitsAt(source, temp, k)
    requires source[k].Op? && source[k].ins.Call? && !ScanAt(source, temp, k).ignore
    requires source[k].cond.None? || ScanAt(source, temp, k).block.Some?
    ensures From(source, temp, k) + 3 <= |Units(source, temp)|
    ensures Find(Output(source, temp), ScanAt(source, temp, k).n) ==
      Some(Pos(Units(source, temp), From(source, temp, k) + 3))
  {
    hide Eligible, Made, Output;
    ScanNumbersOf(source, temp, k);
    var made := Emit(ScanAt(source, temp, k), source[k], temp);
    assert made[..4] == ExpandCall(source[k].ins.l, ScanAt(source, temp, k).n);
    assert made[3] == Once(Label(ScanAt(source, temp, k).n));
    assert made[..3] == ExpandCall(source[k].ins.l, ScanAt(source, temp, k).n)[..3];
    FindFresh(source, temp, k, 3, ScanAt(source, temp, k).n);
  }

  lemma {:induction false} ScanNumbersOf(source: seq<Line>, temp: Spare, k: nat)
    requires Eligible(source, temp) && k <= |source|
    ensures ScanAt(source, temp, k).n >= FIRST_LABEL
    ensures ScanAt(source, temp, k).block.Some? ==> ScanAt(source, temp, k).block.value.l >= FIRST_LABEL
  {
    ScanNumbers(source, temp, k);
  }

  // ----- Blocks -----

  /** The label that closes the current branch of a block, when this line is its last. */
  predicate Closes(b: Block) {
    b.thens == 1 || (b.thens == 0 && b.elses == 1)
  }

  /** The units of a block line: what its instruction becomes, and what closes the branch. */
  lemma {:induction false} BlockUnits(source: seq<Line>, temp: Spare, k: nat)
    requires Eligible(source, temp) && k < |source| && ScanAt(source, temp, k).block.Some?
    ensures FitsAt(source, temp, k) && source[k].Op?
    ensures source[k].cond == Some(Expected(ScanAt(source, temp, k).block.value))
    ensures temp !in Tokens(source[k].ins) && Replaceable(source[k].ins) && !ScanAt(source, temp, k).ignore
    ensures var st := ScanAt(source, temp, k);
      && Emit(st, source[k], temp) == ExpandOp(source[k].ins, temp, st.n) + Tail(st.block.value)
      && ScanAt(source, temp, k + 1).block == NextBlock(st.block.value)
      && (NextBlock(st.block.value).Some? ==> Falls(source[k].ins))
      && st.block.value.thens + st.block.value.elses > 0
  {
    hide Replaceable, ExpandOp;
    assert FitsAt(source, temp, k) && EligibleAt(source, temp, k);
    ScanState(source, temp, k);
  }

  lemma {:induction false} ClosingUnit(source: seq<Line>, temp: Spare, k: nat)
    requires Eligible(source, temp) && k < |source| && ScanAt(source, temp, k).block.Some?
    requires Closes(ScanAt(source, temp, k).block.value)
    ensures FitsAt(source, temp, k)
    ensures var st := ScanAt(source, temp, k);
      var made, l := Emit(st, source[k], temp), Waiting(st.block.value);
      |made| > 0 && made[|made| - 1] == Once(Label(l)) && Once(Label(l)) !in made[..|made| - 1] &&
      l >= FIRST_LABEL && Awaited(st, l)
  {
    hide Eligible, Emit, Fits, ExpandOp, Replaceable, Tail, Tokens;
    BlockUnits(source, temp, k);
    BelowFresh(source, temp, k);
    ScanNumbersOf(source, temp, k);
    var st := ScanAt(source, temp, k);
    var b := st.block.value;
    var ops := ExpandOp(source[k].ins, temp, st.n);
    LastOfTail(ops, b);
    if Once(Label(Waiting(b))) in ops {
      OpLabels(source[k].ins, temp, st.n, Waiting(b));
    }
  }

  /** The closing label is the last unit of its line, and found there. */
  lemma {:induction false} ClosingLabel(source: seq<Line>, temp: Spare, k: nat)
    requires Eligible(source, temp) && k < |source| && ScanAt(source, temp, k).block.Some?
    requires Closes(ScanAt(source, temp, k).block.value)
    ensures var b, j := ScanAt(source, temp, k).block.value, From(source, temp, k + 1);
      && 0 < j <= |Units(source, temp)|
      && Units(source, temp)[j - 1] == Once(Label(Waiting(b)))
      && Find(Output(source, temp), Waiting(b)) == Some(Pos(Units(source, temp), j - 1))
      && Level(source, temp, k + 1, Pos(Units(source, temp), j - 1))
  {
    hide Eligible, Made, Emit, Fits, Output, Awaited, Waiting, Closes, Find, Settle;
    ClosingUnit(source, temp, k);
    LineUnits(source, temp, k);
    LinePlaces(source, temp, k + 1);
    var st := ScanAt(source, temp, k);
    var made, l := Emit(st, source[k], temp), Waiting(st.block.value);
    FindFresh(source, temp, k, |made| - 1, l);
    LineUnit(source, temp, k, |made| - 1);
    LabelSettles(source, temp, From(source, temp, k) + |made| - 1, l);
  }

  lemma {:induction false} LastOfTail(ops: seq<Unit>, b: Block)
    requires Closes(b)
    ensures var made := ops + Tail(b); var i := |made| - 1;
      i >= 0 && made[i] == Once(Label(Waiting(b))) &&
      (Once(Label(Waiting(b))) !in ops ==> Once(Label(Waiting(b))) !in made[..i])
  {
    var made := ops + Tail(b);
    assert made[..|made| - 1] == ops + Tail(b)[..|Tail(b)| - 1];
  }

  lemma {:induction false} BelowFresh(source: seq<Line>, temp: Spare, k: nat)
    requires Eligible(source, temp) && k <= |source| && ScanAt(source, temp, k).block.Some?
    ensures var st := ScanAt(source, temp, k); st.block.value.l + 1 < st.n && Awaited(st, Waiting(st.block.value))
  {
    ScanNumbers(source, temp, k);
  }

  lemma {:induction false} OpenInside(source: seq<Line>, temp: Spare, k: nat)
    requires Eligible(source, temp) && k <= |source| && ScanAt(source, temp, k).block.Some?
    ensures k < |source|
  {
  }

  /** The labels of an open block are there. */
  lemma {:induction false} LabelsThere(source: seq<Line>, temp: Spare, k: nat)
    requires Eligible(source, temp) && k <= |source| && ScanAt(source, temp, k).block.Some?
    ensures var b := ScanAt(source, temp, k).block.value;
      && (b.thens > 0 ==> Find(Output(source, temp), b.l).Some?)
      && (b.elses > 0 ==> Find(Output(source, temp), b.l + 1).Some?)
    decreases |source| - k
  {
    hide Emit, Fits, Output, Find, Eligible, Made, ExpandOp, Tail, Replaceable, Settle;
    OpenInside(source, temp, k);
    BlockUnits(source, temp, k);
    var b := ScanAt(source, temp, k).block.value;
    if Closes(b) {
      ClosingLabel(source, temp, k);
    }
    if NextBlock(b).Some? {
      LabelsThere(source, temp, k + 1);
    }
  }

  lemma {:induction false} JumpGets(source: seq<Line>, temp: Spare, j: nat, cond: Option<Condition>, l: nat, o: State)
    returns (w: State)
    requires Eligible(source, temp) && (cond.None? || Evaluate(cond.value, o.flags))
    requires AtUnit(source, temp, j, o) && j < |Units(source, temp)|
    requires Units(source, temp)[j].line == Op(cond, Branch(l)) && Find(Output(source, temp), l).Some?
    ensures Gets(source, temp, o, w) && w == o.(pc := Find(Output(source, temp), l).value)
  {
    hide Made, Eligible, Reaches, Entries, Perform, Find, GoodUnits, Evaluate;
    w := o.(pc := Find(Output(source, temp), l).value);
    FoundEntry(source, temp, l);
    BranchPerforms(Output(source, temp), l, o);
    MadeGood(source, temp, |source|);
    UnitJumps(Units(source, temp), j, cond, Branch(l), o, w);
  }

  /** The branch that stands for an IT instruction, and what is behind it. */
  lemma {:induction false} ItStarts(source: seq<Line>, temp: Spare, k: nat)
    requires Eligible(source, temp) && k < |source|
    requires ScanAt(source, temp, k).block.None? && source[k].It? && !ScanAt(source, temp, k).ignore
    ensures var st, line, j := ScanAt(source, temp, k), source[k], From(source, temp, k);
      && ScanAt(source, temp, k + 1).block == Some(Block(line.thens, line.elses, line.test, st.n)) && line.thens > 0
      && j < |Units(source, temp)| && Units(source, temp)[j].line == Op(Some(Inverse(line.test)), Branch(st.n))
      && Pos(Units(source, temp), j + 1) == At(source, temp, k + 1)
      && Find(Output(source, temp), st.n).Some?
  {
    hide Eligible, Made, Emit, Fits, Output, Find;
    SolidStart(source, temp, k);
    ItUnits(source, temp, k);
    FirstUnit(source, temp, From(source, temp, k), Emit(ScanAt(source, temp, k), source[k], temp));
    LabelsThere(source, temp, k + 1);
  }

  /** An active IT instruction: a branch past the first lines when its condition fails. */
  lemma {:induction false} ItLine(source: seq<Line>, temp: Spare, s: State, held: bool, o: State) returns (w: State)
    requires Eligible(source, temp) && Related(source, temp, s, held, o)
    requires s.pc < |source| && ScanAt(source, temp, s.pc).block.None? && source[s.pc].It?
    requires !ScanAt(source, temp, s.pc).ignore
    ensures Related(source, temp, Next(s), Evaluate(source[s.pc].test, s.flags), w) && Gets(source, temp, o, w)
  {
    hide Eligible, Alike, StateAmong, Landings, Places, Made, Reaches, Perform, Fits, Find, Evaluate, Settle, Emit,
      ExpandOp;
    var k := s.pc;
    LevelRuns(source, temp, k, o);
    ItStarts(source, temp, k);
    var st, line, j, a := ScanAt(source, temp, k), source[k], From(source, temp, k), o.(pc := At(source, temp, k));
    FlagsAlike(Places(source, temp), {temp}, s, o);
    InverseHolds(line.test, s.flags);
    if Evaluate(line.test, s.flags) {
      UnitPassed(Units(source, temp), j, Inverse(line.test), Branch(st.n), a);
      w := a.(pc := At(source, temp, k + 1));
    } else {
      w := JumpGets(source, temp, j, Some(Inverse(line.test)), st.n, a);
    }
    GetsTrans(source, temp, o, a, w);
    NextKeeps(source, temp, s, o, w.pc);
  }

  lemma {:induction false} BranchPerforms(prog: seq<Line>, l: nat, o: State)
    requires Find(prog, l).Some?
    ensures Perform(prog, Branch(l), o) == Some(o.(pc := Find(prog, l).value))
  {
  }

  lemma {:induction false} ItUnits(source: seq<Line>, temp: Spare, k: nat)
    requires Eligible(source, temp) && k < |source| && FitsAt(source, temp, k)
    requires ScanAt(source, temp, k).block.None? && source[k].It? && !ScanAt(source, temp, k).ignore
    ensures var st, line := ScanAt(source, temp, k), source[k];
      && Emit(st, line, temp) == [Once(Op(Some(Inverse(line.test)), Branch(st.n)))]
      && ScanAt(source, temp, k + 1).block == Some(Block(line.thens, line.elses, line.test, st.n)) && line.thens > 0
  {
  }

  lemma {:induction false} FoundEntry(source: seq<Line>, temp: Spare, l: nat)
    requires Eligible(source, temp) && Find(Output(source, temp), l).Some?
    ensures Find(Output(source, temp), l).value in Entries(OutputRoles(source, temp))
  {
    hide Eligible, Made, Entries, Paired;
    OutputPaired(source, temp);
    LabelsAreEntries(Output(source, temp), OutputRoles(source, temp));
  }

  /** A block line whose condition fails: the output goes on waiting, or has arrived. */
  lemma {:induction false} SkippedLine(source: seq<Line>, temp: Spare, s: State, held: bool, o: State)
    requires Eligible(source, temp) && Related(source, temp, s, held, o)
    requires s.pc < |source| && ScanAt(source, temp, s.pc).block.Some?
    requires !Takes(ScanAt(source, temp, s.pc).block.value, held)
    ensures Related(source, temp, Next(s), held, o) && Gets(source, temp, o, o)
  {
    hide Eligible, Alike, StateAmong, Landings, Places, Made, Reaches, Emit, Perform, Output, OutputRoles, Fits, Find,
      Settle,
      Evaluate, Replaceable, ExpandOp, Tail;
    var k := s.pc;
    var b := ScanAt(source, temp, k).block.value;
    BlockUnits(source, temp, k);
    if Closes(b) {
      ClosingLabel(source, temp, k);
    }
    ReachesSelf(Output(source, temp), OutputRoles(source, temp), o);
    NextKeeps(source, temp, s, o, o.pc);
  }

  lemma {:induction false} FallsOn(prog: seq<Line>, ins: Instruction, s: State)
    requires Falls(ins)
    ensures !Jumps(ins, s)
  {
  }

  /** The jump over the other lines stands behind the last line with the condition of the block. */
  lemma {:induction false} JumpStands(source: seq<Line>, temp: Spare, k: nat)
    requires Eligible(source, temp) && k < |source| && ScanAt(source, temp, k).block.Some? && source[k].Op?
    requires var b := ScanAt(source, temp, k).block.value; b.thens == 1 && b.elses > 0
    ensures var st := ScanAt(source, temp, k);
      var at := From(source, temp, k) + |ExpandOp(source[k].ins, temp, st.n)|;
      && at < |Units(source, temp)| && Units(source, temp)[at].line == Do(Branch(st.block.value.l + 1))
      && Find(Output(source, temp), st.block.value.l + 1).Some?
  {
    hide Eligible, Made, Emit, OutputRoles, Fits, Find, Settle, Replaceable, ExpandOp, Output;
    var st, j := ScanAt(source, temp, k), From(source, temp, k);
    var b := st.block.value;
    BlockUnits(source, temp, k);
    LabelsThere(source, temp, k);
    LineUnits(source, temp, k);
    var ops := ExpandOp(source[k].ins, temp, st.n);
    SplitUnits(source, temp, j, ops, Tail(b));
    FirstUnit(source, temp, j + |ops|, Tail(b));
  }

  /** The jump over the other branch, behind the last `then` line. */
  lemma {:induction false} JumpOver(source: seq<Line>, temp: Spare, k: nat, a: State) returns (w: State)
    requires Eligible(source, temp) && k < |source| && ScanAt(source, temp, k).block.Some?
    requires var b := ScanAt(source, temp, k).block.value; b.thens == 1 && b.elses > 0
    requires var st := ScanAt(source, temp, k);
      source[k].Op? && AtUnit(source, temp, From(source, temp, k) + |ExpandOp(source[k].ins, temp, st.n)|, a)
    ensures Gets(source, temp, a, w)
    ensures var l := ScanAt(source, temp, k).block.value.l + 1;
      Find(Output(source, temp), l).Some? && w == a.(pc := Find(Output(source, temp), l).value)
  {
    hide Eligible, Made, Find, Settle, ExpandOp, Output, Gets, AtUnit;
    var st := ScanAt(source, temp, k);
    JumpStands(source, temp, k);
    w := JumpGets(source, temp, From(source, temp, k) + |ExpandOp(source[k].ins, temp, st.n)|, None,
                  st.block.value.l + 1, a);
  }

  /** Where the units of a block line end. */
  lemma {:induction false} BlockNext(source: seq<Line>, temp: Spare, k: nat)
    requires Eligible(source, temp) && k < |source| && ScanAt(source, temp, k).block.Some?
    ensures FitsAt(source, temp, k) && source[k].Op?
    ensures var st, j := ScanAt(source, temp, k), From(source, temp, k);
      var b, ops := st.block.value, ExpandOp(source[k].ins, temp, st.n);
      && UnitsAt(source, temp, j, ops) && j + |ops| <= From(source, temp, k + 1) <= |Units(source, temp)|
      && (NextBlock(b).None? ==> Level(source, temp, k + 1, Pos(Units(source, temp), j + |ops|)))
      && (NextBlock(b).Some? && !(b.thens == 1 && b.elses > 0) ==>
            Pos(Units(source, temp), j + |ops|) == At(source, temp, k + 1))
  {
    hide Eligible, Made, Emit, Find, Settle, Replaceable, ExpandOp, Output, Fits, ScanAt, Pos, At;
    BlockUnits(source, temp, k);
    LineUnits(source, temp, k);
    LinePlaces(source, temp, k + 1);
    var st, j := ScanAt(source, temp, k), From(source, temp, k);
    var b, ops := st.block.value, ExpandOp(source[k].ins, temp, st.n);
    SplitUnits(source, temp, j, ops, Tail(b));
    if NextBlock(b).None? {
      ClosingLabel(source, temp, k);
    }
  }

  lemma {:induction false} TakenRuns(source: seq<Line>, temp: Spare, s: State, held: bool, o: State) returns (w: State)
    requires Eligible(source, temp) && Related(source, temp, s, held, o)
    requires s.pc < |source| && ScanAt(source, temp, s.pc).block.Some? && source[s.pc].Op?
    requires Takes(ScanAt(source, temp, s.pc).block.value, held)
    requires Perform(source, source[s.pc].ins, s).Some?
    ensures Gets(source, temp, o, w)
    ensures Followed(source, temp, source[s.pc].ins, s, Perform(source, source[s.pc].ins, s).value,
      From(source, temp, s.pc) + |ExpandOp(source[s.pc].ins, temp, ScanAt(source, temp, s.pc).n)|, w)
  {
    hide Eligible, Alike, StateAmong, Landings, Places, Made, Output, Reaches, Emit, Perform, Tokens, ExpandOp,
      Replaceable,
      Find, Settle, Fits, Facing;
    var k := s.pc;
    var ins, st, j, a := source[k].ins, ScanAt(source, temp, k), From(source, temp, k), o.(pc := At(source, temp, k));
    LevelRuns(source, temp, k, o);
    BlockUnits(source, temp, k);
    BlockNext(source, temp, k);
    MovedPc(Places(source, temp), {temp}, s, o, a.pc);
    var next := j + |ExpandOp(ins, temp, st.n)|;
    if ins.Call? {
      ReturnLabel(source, temp, k);
    }
    if ins.Call? || ins.CallReg? {
      ReturnPlace(source, temp, s, next);
    }
    w := OpRuns(source, temp, j, ins, st.n, s, a);
    GetsTrans(source, temp, o, a, w);
  }

  /** A block line whose condition holds. */
  lemma {:induction false} TakenLine(source: seq<Line>, temp: Spare, s: State, held: bool, o: State) returns (w: State)
    requires Eligible(source, temp) && Related(source, temp, s, held, o)
    requires s.pc < |source| && ScanAt(source, temp, s.pc).block.Some? && source[s.pc].Op?
    requires Takes(ScanAt(source, temp, s.pc).block.value, held)
    requires Perform(source, source[s.pc].ins, s).Some?
    ensures Related(source, temp, Perform(source, source[s.pc].ins, s).value, held, w) && Gets(source, temp, o, w)
  {
    hide Eligible, Alike, StateAmong, Landings, Places, Made, Output, Reaches, Emit, Perform, Tokens, ExpandOp,
      Replaceable,
      Find, Settle, Fits, Facing, Evaluate, Tail, Jumps, Gets;
    var k := s.pc;
    var ins, b := source[k].ins, ScanAt(source, temp, k).block.value;
    var t := Perform(source, ins, s).value;
    BlockUnits(source, temp, k);
    BlockNext(source, temp, k);
    PerformLands(source, temp, s);
    w := TakenRuns(source, temp, s, held, o);
    var next := From(source, temp, k) + |ExpandOp(ins, temp, ScanAt(source, temp, k).n)|;
    if NextBlock(b).None? {
      AfterClosed(source, temp, s, held, t, next, w);
    } else {
      FallsOn(source, ins, s);
      if b.thens == 1 && b.elses > 0 {
        var a := w;
        w := JumpOver(source, temp, k, a);
        GetsTrans(source, temp, o, a, w);
        MovedPc(Places(source, temp), {temp}, t, a, w.pc);
      }
    }
  }

  // ----- Runs -----

  /** The source with the condition of each block latched: it is tested once, at the IT instruction, and
      `held` says how it came out. */
  datatype Latched = Latched(state: State, held: bool)

  function LatchedStep(source: seq<Line>, temp: Spare, l: Latched): Option<Latched> {
    var s := l.state;
    if s.pc >= |source| then None
    else match ScanAt(source, temp, s.pc).block
      case Some(b) =>
        if !Takes(b, l.held) then Some(Latched(Next(s), l.held))
        else if !source[s.pc].Op? then None
        else
          (match Perform(source, source[s.pc].ins, s)
           case None => None
           case Some(t) => Some(Latched(t, l.held)))
      case None =>
        match Step(source, s)
        case None => None
        case Some(t) =>
          var opens := source[s.pc].It? && !ScanAt(source, temp, s.pc).ignore;
          Some(Latched(t, if opens then Evaluate(source[s.pc].test, s.flags) else l.held))
  }

  function LatchedRun(source: seq<Line>, temp: Spare, l: Latched, n: nat): Option<Latched>
    decreases n
  {
    if n == 0 || Halted(source, l.state) then Some(l)
    else match LatchedStep(source, temp, l)
      case None => None
      case Some(m) => LatchedRun(source, temp, m, n - 1)
  }

  /** One line of the source, blocks latched, is followed by the output. */
  lemma {:induction false} StepFollowed(source: seq<Line>, temp: Spare, l: Latched, o: State) returns (w: State)
    requires Eligible(source, temp) && Related(source, temp, l.state, l.held, o) && LatchedStep(source, temp, l).Some?
    ensures var m := LatchedStep(source, temp, l).value;
      Gets(source, temp, o, w) && Related(source, temp, m.state, m.held, w)
  {
    hide Eligible, Related, Gets, Perform, Emit, After, Fits;
    var s, held := l.state, l.held;
    var k := s.pc;
    ScanState(source, temp, k);
    if ScanAt(source, temp, k).block.Some? {
      BlockUnits(source, temp, k);
      if Takes(ScanAt(source, temp, k).block.value, held) {
        w := TakenLine(source, temp, s, held, o);
      } else {
        SkippedLine(source, temp, s, held, o);
        w := o;
      }
    } else {
      match source[k]
      case Label(_) =>
        LabelLine(source, temp, s, held, o);
        w := o;
      case Op(cond, _) =>
        if ScanAt(source, temp, k).ignore || cond.Some? {
          w := PlainLine(source, temp, s, held, o);
        } else {
          w := ReplacedLine(source, temp, s, held, o);
        }
      case It(_, _, _) =>
        if ScanAt(source, temp, k).ignore {
          w := QuietLine(source, temp, s, held, o);
        } else {
          w := ItLine(source, temp, s, held, o);
        }
      case _ => w := QuietLine(source, temp, s, held, o);
    }
  }

  /** Whatever the source with latched blocks gets to, the output gets to. */
  lemma {:induction false} LatchedFollowed(source: seq<Line>, temp: Spare, l: Latched, n: nat, o: State)
    returns (w: State)
    requires Eligible(source, temp) && Related(source, temp, l.state, l.held, o) && LatchedRun(source, temp, l, n).Some?
    ensures var m := LatchedRun(source, temp, l, n).value;
      Gets(source, temp, o, w) && Related(source, temp, m.state, m.held, w)
    decreases n
  {
    hide Eligible, Related, Gets, LatchedStep;
    w := o;
    if n == 0 || Halted(source, l.state) {
      GetsSelf(source, temp, o);
    } else {
      var a := StepFollowed(source, temp, l, o);
      w := LatchedFollowed(source, temp, LatchedStep(source, temp, l).value, n - 1, a);
      GetsTrans(source, temp, o, a, w);
    }
  }

  // ----- When latching makes no difference -----

  /** The decision the source takes about the line it stands at, if it is a line of a block: to execute it. */
  predicate Executes(source: seq<Line>, temp: Spare, s: State) {
    s.pc < |source| && ScanAt(source, temp, s.pc).block.Some? &&
      Evaluate(Expected(ScanAt(source, temp, s.pc).block.value), s.flags)
  }

  /** The condition of the line comes out, when it is reached, as it did at the IT instruction. */
  predicate AsLatched(source: seq<Line>, temp: Spare, l: Latched) {
    var s := l.state;
    s.pc < |source| && ScanAt(source, temp, s.pc).block.Some? ==>
      Executes(source, temp, s) == Takes(ScanAt(source, temp, s.pc).block.value, l.held)
  }

  /** So do those of all lines of a run. */
  predicate Steady(source: seq<Line>, temp: Spare, l: Latched, n: nat)
    decreases n
  {
    n == 0 || Halted(source, l.state) ||
    (AsLatched(source, temp, l) &&
     match LatchedStep(source, temp, l)
     case None => true
     case Some(m) => Steady(source, temp, m, n - 1))
  }

  /** What a run does, line by line: where it stands, and whether it executes the line. */
  function Deeds(source: seq<Line>, temp: Spare, s: State, n: nat): seq<(nat, bool)>
    decreases n
  {
    if n == 0 || Halted(source, s) then []
    else
      var rest := match Step(source, s) case None => [] case Some(t) => Deeds(source, temp, t, n - 1);
      [(s.pc, Executes(source, temp, s))] + rest
  }

  predicate LatchedExecutes(source: seq<Line>, temp: Spare, l: Latched) {
    l.state.pc < |source| && ScanAt(source, temp, l.state.pc).block.Some? &&
    Takes(ScanAt(source, temp, l.state.pc).block.value, l.held)
  }

  function LatchedDeeds(source: seq<Line>, temp: Spare, l: Latched, n: nat): seq<(nat, bool)>
    decreases n
  {
    if n == 0 || Halted(source, l.state) then []
    else
      var rest :=
        match LatchedStep(source, temp, l) case None => [] case Some(m) => LatchedDeeds(source, temp, m, n - 1);
      [(l.state.pc, LatchedExecutes(source, temp, l))] + rest
  }

  lemma {:induction false} StepAsLatched(source: seq<Line>, temp: Spare, l: Latched)
    requires Eligible(source, temp) && AsLatched(source, temp, l)
    ensures LatchedStep(source, temp, l).None? == Step(source, l.state).None?
    ensures LatchedStep(source, temp, l).Some? ==>
      Step(source, l.state) == Some(LatchedStep(source, temp, l).value.state)
  {
    hide Eligible, Perform, Emit, After, Fits, Made, ExpandOp;
    var s := l.state;
    if s.pc < |source| && ScanAt(source, temp, s.pc).block.Some? {
      BlockUnits(source, temp, s.pc);
    }
  }

  lemma {:induction false} SameFirst(source: seq<Line>, temp: Spare, l: Latched)
    ensures Executes(source, temp, l.state) == LatchedExecutes(source, temp, l) <==> AsLatched(source, temp, l)
  {
    hide ScanAt, Takes, Evaluate;
  }

  lemma {:induction false} DeedsFront(source: seq<Line>, temp: Spare, s: State, n: nat)
    requires n > 0 && !Halted(source, s)
    ensures Deeds(source, temp, s, n) == [(s.pc, Executes(source, temp, s))] +
      match Step(source, s) case None => [] case Some(t) => Deeds(source, temp, t, n - 1)
  {
    hide Step, Executes;
  }

  lemma {:induction false} LatchedFront(source: seq<Line>, temp: Spare, l: Latched, n: nat)
    requires n > 0 && !Halted(source, l.state)
    ensures LatchedDeeds(source, temp, l, n) == [(l.state.pc, LatchedExecutes(source, temp, l))] +
      match LatchedStep(source, temp, l) case None => [] case Some(m) => LatchedDeeds(source, temp, m, n - 1)
  {
    hide LatchedStep, ScanAt;
  }

  lemma {:induction false} SameFronts(e: (nat, bool), f: (nat, bool), a: seq<(nat, bool)>, b: seq<(nat, bool)>)
    ensures [e] + a == [f] + b <==> e == f && a == b
  {
    assert ([e] + a)[0] == e && ([f] + b)[0] == f && ([e] + a)[1..] == a && ([f] + b)[1..] == b;
  }

  /** The source executes the same lines as with blocks latched, and so the same as the output, if and only
      if the condition of every line comes out, when the line is reached, as it did at the IT instruction. */
  lemma {:induction false} SameDeeds(source: seq<Line>, temp: Spare, l: Latched, n: nat)
    requires Eligible(source, temp)
    ensures Deeds(source, temp, l.state, n) == LatchedDeeds(source, temp, l, n) <==> Steady(source, temp, l, n)
    decreases n
  {
    hide Eligible, Step, LatchedStep, Executes, LatchedExecutes, AsLatched, ScanAt;
    if n > 0 && !Halted(source, l.state) {
      DeedsFront(source, temp, l.state, n);
      LatchedFront(source, temp, l, n);
      SameFirst(source, temp, l);
      var a := match Step(source, l.state) case None => [] case Some(t) => Deeds(source, temp, t, n - 1);
      var b := match LatchedStep(source, temp, l) case None => [] case Some(m) => LatchedDeeds(source, temp, m, n - 1);
      SameFronts((l.state.pc, Executes(source, temp, l.state)), (l.state.pc, LatchedExecutes(source, temp, l)), a, b);
      if AsLatched(source, temp, l) {
        StepAsLatched(source, temp, l);
        if LatchedStep(source, temp, l).Some? {
          SameDeeds(source, temp, LatchedStep(source, temp, l).value, n - 1);
        }
      }
    }
  }

  lemma {:induction false} SteadyRun(source: seq<Line>, temp: Spare, l: Latched, n: nat)
    requires Eligible(source, temp) && Steady(source, temp, l, n)
    ensures LatchedRun(source, temp, l, n).None? == Run(source, l.state, n).None?
    ensures Run(source, l.state, n).Some? ==>
      LatchedRun(source, temp, l, n).value.state == Run(source, l.state, n).value
    decreases n
  {
    hide Eligible, Step, LatchedStep, AsLatched;
    if n == 0 || Halted(source, l.state) {
      RunIdles(source, l.state, n);
    } else {
      StepAsLatched(source, temp, l);
      match LatchedStep(source, temp, l)
      case None =>
      case Some(m) => SteadyRun(source, temp, m, n - 1);
    }
  }

  /** Meaning is preserved: whatever a steady run of the source gets to, the output gets to. */
  lemma {:induction false} RunFollowed(source: seq<Line>, temp: Spare, l: Latched, n: nat, o: State)
    returns (w: State, held: bool)
    requires Eligible(source, temp) && Related(source, temp, l.state, l.held, o) && Steady(source, temp, l, n)
    requires Run(source, l.state, n).Some?
    ensures Gets(source, temp, o, w) && Related(source, temp, Run(source, l.state, n).value, held, w)
  {
    hide Eligible, Related, Gets, LatchedRun, Run, Steady;
    SteadyRun(source, temp, l, n);
    w := LatchedFollowed(source, temp, l, n, o);
    held := LatchedRun(source, temp, l, n).value.held;
  }

  // ----- Blocks whose inner lines write no flags -----

  predicate Sets(ins: Instruction) {
    SetsFlags(ins) || ins.Compare? || ins.Test? || ins.WriteFlags?
  }

  /** Only the last line of a block writes flags. */
  predicate Quiet(source: seq<Line>, temp: Spare) {
    forall k | 0 <= k < |source| && source[k].Op? && ScanAt(source, temp, k).block.Some? ::
      NextBlock(ScanAt(source, temp, k).block.value).Some? ==> !Sets(source[k].ins)
  }

  lemma {:induction false} FlagsKept(prog: seq<Line>, ins: Instruction, s: State)
    requires Falls(ins) && !Sets(ins) && Perform(prog, ins, s).Some?
    ensures Perform(prog, ins, s).value.flags == s.flags && Perform(prog, ins, s).value.pc == s.pc + 1
  {
    hide Second, LoadedMany, LoadFrom, StoreTo, CellsOfMany, Thumb.Inserted, Extracted, Extend, Compute, BlockStart,
      BlockEnd;
  }

  /** Before a line of a block, its condition is that of the IT instruction. */
  predicate Faithful(source: seq<Line>, temp: Spare, l: Latched) {
    l.state.pc <= |source| &&
    match ScanAt(source, temp, l.state.pc).block
    case None => true
    case Some(b) => Evaluate(b.test, l.state.flags) == l.held
  }

  lemma {:induction false} FaithfulStep(source: seq<Line>, temp: Spare, l: Latched)
    requires Eligible(source, temp) && Quiet(source, temp) && Faithful(source, temp, l)
    requires StateAmong(Landings(source, temp), l.state)
    ensures AsLatched(source, temp, l)
    ensures LatchedStep(source, temp, l).Some? ==>
      Faithful(source, temp, LatchedStep(source, temp, l).value) &&
      StateAmong(Landings(source, temp), LatchedStep(source, temp, l).value.state)
  {
    hide Eligible, Perform, Emit, Fits, Made, StateAmong, Sets, ExpandOp, Tail, Quiet;
    var s := l.state;
    if s.pc < |source| {
      var st := ScanAt(source, temp, s.pc);
      ScanState(source, temp, s.pc);
      if st.block.Some? {
        BlockUnits(source, temp, s.pc);
        InverseHolds(st.block.value.test, s.flags);
        FaithfulLine(source, temp, l);
      } else {
        FaithfulOutside(source, temp, l);
      }
    }
  }

  /** A line of a block. */
  lemma {:induction false} FaithfulLine(source: seq<Line>, temp: Spare, l: Latched)
    requires Eligible(source, temp) && Quiet(source, temp) && Faithful(source, temp, l)
    requires StateAmong(Landings(source, temp), l.state)
    requires l.state.pc < |source| && ScanAt(source, temp, l.state.pc).block.Some?
    ensures LatchedStep(source, temp, l).Some? ==>
      Faithful(source, temp, LatchedStep(source, temp, l).value) &&
      StateAmong(Landings(source, temp), LatchedStep(source, temp, l).value.state)
  {
    hide Eligible, Perform, Emit, Fits, Made, StateAmong, Sets, ExpandOp, Tail, Evaluate, Replaceable, Tokens;
    var s := l.state;
    var k := s.pc;
    var b := ScanAt(source, temp, k).block.value;
    BlockUnits(source, temp, k);
    NextAmong(source, temp, s);
    if Takes(b, l.held) && Perform(source, source[k].ins, s).Some? {
      PerformPlace(source, temp, s);
      if NextBlock(b).Some? {
        FlagsKept(source, source[k].ins, s);
      }
    }
  }

  lemma {:induction false} NextAmong(source: seq<Line>, temp: Spare, s: State)
    requires StateAmong(Landings(source, temp), s)
    ensures StateAmong(Landings(source, temp), Next(s))
  {
  }

  /** An instruction goes on to the next line or to a landing. */
  lemma {:induction false} PerformPlace(source: seq<Line>, temp: Spare, s: State)
    requires Eligible(source, temp) && StateAmong(Landings(source, temp), s)
    requires s.pc < |source| && source[s.pc].Op? && Perform(source, source[s.pc].ins, s).Some?
    ensures var t := Perform(source, source[s.pc].ins, s).value;
      StateAmong(Landings(source, temp), t) &&
        (t.pc == s.pc + 1 || (t.pc <= |source| && ScanAt(source, temp, t.pc).block.None?))
  {
    hide Eligible, StateAmong, Perform, Emit;
    var ins := source[s.pc].ins;
    LandingLabels(source, temp);
    if ins.Call? || ins.CallReg? {
      ClosedBehind(source, temp, s.pc);
      SettledPlace(source, temp, s.pc + 1);
    }
    PerformAmong(source, Landings(source, temp), ins, s);
  }

  /** A line outside blocks. */
  lemma {:induction false} FaithfulOutside(source: seq<Line>, temp: Spare, l: Latched)
    requires Eligible(source, temp) && StateAmong(Landings(source, temp), l.state)
    requires l.state.pc < |source| && ScanAt(source, temp, l.state.pc).block.None?
    ensures LatchedStep(source, temp, l).Some? ==>
      Faithful(source, temp, LatchedStep(source, temp, l).value) &&
      StateAmong(Landings(source, temp), LatchedStep(source, temp, l).value.state)
  {
    hide Eligible, Perform, Emit, Made, StateAmong, ExpandOp, Evaluate, Replaceable, Tokens;
    var s := l.state;
    OutsideNext(source, temp, s.pc);
    NextAmong(source, temp, s);
    if source[s.pc].Op? && Perform(source, source[s.pc].ins, s).Some? {
      PerformPlace(source, temp, s);
    }
  }

  lemma {:induction false} OutsideNext(source: seq<Line>, temp: Spare, k: nat)
    requires Eligible(source, temp) && k < |source| && ScanAt(source, temp, k).block.None?
    ensures var b := ScanAt(source, temp, k + 1).block;
      if source[k].It? && !ScanAt(source, temp, k).ignore then b.Some? && b.value.test == source[k].test else b.None?
  {
    hide Replaceable, Tokens;
    assert FitsAt(source, temp, k);
  }

  /** In a program whose blocks write flags at their end only, every run is steady. */
  lemma {:induction false} QuietIsSteady(source: seq<Line>, temp: Spare, l: Latched, n: nat)
    requires Eligible(source, temp) && Quiet(source, temp) && Faithful(source, temp, l)
    requires StateAmong(Landings(source, temp), l.state)
    ensures Steady(source, temp, l, n)
    decreases n
  {
    hide Eligible, Quiet, Faithful, StateAmong, LatchedStep, AsLatched;
    if n > 0 && !Halted(source, l.state) {
      FaithfulStep(source, temp, l);
      if LatchedStep(source, temp, l).Some? {
        QuietIsSteady(source, temp, LatchedStep(source, temp, l).value, n - 1);
      }
    }
  }

  lemma {:induction false} GetsSelf(source: seq<Line>, temp: Spare, o: State)
    ensures Gets(source, temp, o, o)
  {
    hide Made;
    ReachesSelf(Output(source, temp), OutputRoles(source, temp), o);
  }

  lemma {:induction false} RunIdles(prog: seq<Line>, s: State, n: nat)
    requires n == 0 || Halted(prog, s)
    ensures Run(prog, s, n) == Some(s)
    decreases n
  {
    hide Step;
    if n > 0 {
      RunIdles(prog, s, n - 1);
    }
  }

  /** The state the output starts in: that of the source with its code addresses moved. */
  function Loaded(source: seq<Line>, temp: Spare, s: State): State
    requires s.pc <= |source|
  {
    var place := Places(source, temp);
    var regs: Registers := seq(15, r requires 0 <= r < 15 => if r == temp then Num(0) else Moved(place, s.regs[r]));
    State(At(source, temp, s.pc), regs, s.flags, MovedMem(place, s.mem))
  }

  lemma {:induction false} LoadedRelated(source: seq<Line>, temp: Spare, s: State, held: bool)
    requires Eligible(source, temp) && s.pc in Landings(source, temp) && StateAmong(Landings(source, temp), s)
    ensures Related(source, temp, s, held, Loaded(source, temp, s))
  {
    hide Eligible, Output, MovedMem, Moved, StateAmong, At, Places;
  }

  lemma {:induction false} MovedAmong(source: seq<Line>, temp: Spare, v: Value)
    requires Eligible(source, temp) && Among(Landings(source, temp), v)
    ensures Among(Entries(OutputRoles(source, temp)), Moved(Places(source, temp), v))
  {
    hide Eligible, Entries, Made;
    if v.Code? {
      PlacesAreEntries(source, temp, v.at);
    }
  }

  lemma {:induction false} MovedCellAmong(source: seq<Line>, temp: Spare, c: Cell)
    requires Eligible(source, temp) && CellAmong(Landings(source, temp), c)
    ensures CellAmong(Entries(OutputRoles(source, temp)), MovedCell(Places(source, temp), c))
  {
    hide Eligible, Entries, Made;
    if c.Part? {
      PlacesAreEntries(source, temp, c.at);
    }
  }

  lemma {:induction false} LoadedOrderly(source: seq<Line>, temp: Spare, s: State)
    requires Eligible(source, temp) && s.pc in Landings(source, temp) && StateAmong(Landings(source, temp), s)
    ensures Orderly(OutputRoles(source, temp), Loaded(source, temp, s))
  {
    hide Eligible, Entries, Made, Moved, MovedCell, Places, OutputRoles, CellAmong, Landings;
    InsideLandings(source, temp, s.pc);
    var o, ok := Loaded(source, temp, s), Entries(OutputRoles(source, temp));
    PlacesAreEntries(source, temp, s.pc);
    forall r: Reg ensures Among(ok, o.regs[r]) {
      MovedAmong(source, temp, s.regs[r]);
    }
    forall a | a in o.mem ensures CellAmong(ok, o.mem[a]) {
      MovedCellAmong(source, temp, s.mem[a]);
    }
  }

  lemma {:induction false} InsideLandings(source: seq<Line>, temp: Spare, k: nat)
    requires k in Landings(source, temp)
    ensures k <= |source|
  {
  }

  /** At the end of the source the output gets to its end. */
  lemma {:induction false} EndRuns(source: seq<Line>, temp: Spare, s: State, held: bool, o: State)
    requires Eligible(source, temp) && Related(source, temp, s, held, o) && Halted(source, s)
    ensures Gets(source, temp, o, o.(pc := |Output(source, temp)|))
  {
    hide Alike, StateAmong, Landings, Made;
    SettleRuns(source, temp, o);
    assert At(source, temp, |source|) == |Output(source, temp)|;
  }

  /** The main result.  When the source with latched blocks runs to its end, so does the output, with the
      same flags and the same registers and memory but for the spare register and the places of code; and
      it ends in one and the same state however many instructions are skipped on the way, as long as only
      paired instructions are and never both halves of a pair. */
  lemma {:induction false} HardenedLatched(source: seq<Line>, temp: Spare, s: State, held: bool, n: nat)
    returns (m: nat, end: State)
    requires Eligible(source, temp) && s.pc in Landings(source, temp) && StateAmong(Landings(source, temp), s)
    requires var r := LatchedRun(source, temp, Latched(s, held), n); r.Some? && Halted(source, r.value.state)
    ensures Halted(Output(source, temp), end)
    ensures Alike(Places(source, temp), {temp}, LatchedRun(source, temp, Latched(s, held), n).value.state, end)
    ensures s.pc <= |source|
    ensures forall skips | Tolerable(Output(source, temp), OutputRoles(source, temp), Loaded(source, temp, s), skips) ::
      FaultyRun(Output(source, temp), Loaded(source, temp, s), skips).Some? &&
      (|skips| >= m ==> FaultyRun(Output(source, temp), Loaded(source, temp, s), skips) == Some(end))
  {
    hide Eligible, Landings, StateAmong, Made, Alike, LatchedRun, PairRun, FaultyRun, Tolerable, Loaded, Paired,
      Orderly;
    InsideLandings(source, temp, s.pc);
    LoadedRelated(source, temp, s, held);
    LoadedOrderly(source, temp, s);
    OutputPaired(source, temp);
    var out, roles, o := Output(source, temp), OutputRoles(source, temp), Loaded(source, temp, s);
    var h := LatchedRun(source, temp, Latched(s, held), n).value;
    var w := LatchedFollowed(source, temp, Latched(s, held), n, o);
    EndRuns(source, temp, h.state, h.held, w);
    end := w.(pc := |out|);
    GetsTrans(source, temp, o, w, end);
    MovedPc(Places(source, temp), {temp}, h.state, w, |out|);
    var k: nat :| PairRun(out, roles, o, k) == Some(end);
    m := 2 * k + 2;
    forall skips | Tolerable(out, roles, o, skips)
      ensures FaultyRun(out, o, skips).Some? && (|skips| >= m ==> FaultyRun(out, o, skips) == Some(end))
    {
      PairedEnds(out, roles, o, k, skips);
    }
  }

  /** The same for the source itself, when the conditions of its block lines come out as at the IT. */
  lemma {:induction false} HardenedRuns(source: seq<Line>, temp: Spare, s: State, n: nat) returns (m: nat, end: State)
    requires Eligible(source, temp) && s.pc in Landings(source, temp) && StateAmong(Landings(source, temp), s)
    requires Steady(source, temp, Latched(s, false), n)
    requires Run(source, s, n).Some? && Halted(source, Run(source, s, n).value)
    ensures Halted(Output(source, temp), end) && Alike(Places(source, temp), {temp}, Run(source, s, n).value, end)
    ensures s.pc <= |source|
    ensures forall skips | Tolerable(Output(source, temp), OutputRoles(source, temp), Loaded(source, temp, s), skips) ::
      FaultyRun(Output(source, temp), Loaded(source, temp, s), skips).Some? &&
      (|skips| >= m ==> FaultyRun(Output(source, temp), Loaded(source, temp, s), skips) == Some(end))
  {
    hide Eligible, Landings, StateAmong, Alike, LatchedRun, FaultyRun, Tolerable, Loaded, Steady, Run, Output,
      OutputRoles, Places;
    SteadyRun(source, temp, Latched(s, false), n);
    m, end := HardenedLatched(source, temp, s, false, n);
  }
}
