/** The output of the replacement pass does what the source does, one instruction at a time: whatever
    units an instruction becomes, executing them from a state with the same data has the instruction's
    effect and goes on behind them, or jumps to where the instruction jumps.  Pairs count as executed once
    here; that they may be executed twice is shown elsewhere. */
module ReplacementMeaning {
  import opened Arithmetic
  import opened Thumb
  import opened CodeAddresses
  import opened Replayable
  import Residues
  import opened SkipTolerance
  import opened ReplacementPass
  import opened ReplacementLayout
  import opened ReplacementTolerance
  import opened ReplacementData
  import opened ReplacementPlaces

  // ----- Running units -----

  /** The paired run gets from one state to the other. */
  ghost predicate Reaches(prog: seq<Line>, roles: seq<Role>, a: State, b: State)
    requires |roles| == |prog|
  {
    exists m: nat :: PairRun(prog, roles, a, m) == Some(b)
  }

  lemma {:induction false} ReachesStep(prog: seq<Line>, roles: seq<Role>, a: State, b: State)
    requires |roles| == |prog| && PairStep(prog, roles, a) == Some(b)
    ensures Reaches(prog, roles, a, b)
  {
    hide PairStep;
    assert PairRun(prog, roles, a, 1) == Some(b);
  }

  lemma {:induction false} ReachesSelf(prog: seq<Line>, roles: seq<Role>, a: State)
    requires |roles| == |prog|
    ensures Reaches(prog, roles, a, a)
  {
    assert PairRun(prog, roles, a, 0) == Some(a);
  }

  lemma {:induction false} ReachesTrans(prog: seq<Line>, roles: seq<Role>, a: State, b: State, c: State)
    requires |roles| == |prog| && Reaches(prog, roles, a, b) && Reaches(prog, roles, b, c)
    ensures Reaches(prog, roles, a, c)
  {
    hide PairRun;
    var m: nat :| PairRun(prog, roles, a, m) == Some(b);
    var n: nat :| PairRun(prog, roles, b, n) == Some(c);
    PairRunSplit(prog, roles, a, m, n);
  }

  /** Labels, marks and the like are passed without effect. */
  lemma {:induction false} QuietUnit(units: seq<Unit>, j: nat, o: State)
    requires j < |units| && o.pc == Pos(units, j)
    requires units[j].Once? && !units[j].line.Op?
    ensures Reaches(Flat(units), Roles(units), o, o.(pc := Pos(units, j + 1)))
  {
    UnitAt(units, j);
    ReachesStep(Flat(units), Roles(units), o, o.(pc := Pos(units, j + 1)));
  }

  /** A unit whose instruction goes on: the paired run comes to the next unit. */
  lemma {:induction false} UnitRuns(units: seq<Unit>, j: nat, cond: Option<Condition>, ins: Instruction, o: State,
                                    w: State)
    requires j < |units| && o.pc == Pos(units, j) && units[j].line == Op(cond, ins)
    requires cond.None? || Evaluate(cond.value, o.flags)
    requires Perform(Flat(units), ins, o) == Some(w) && w.pc == o.pc + 1
    ensures Reaches(Flat(units), Roles(units), o, w.(pc := Pos(units, j + 1)))
  {
    hide Perform;
    UnitAt(units, j);
    ReachesStep(Flat(units), Roles(units), o, w.(pc := Pos(units, j + 1)));
  }

  /** A unit whose condition fails. */
  lemma {:induction false} UnitPassed(units: seq<Unit>, j: nat, c: Condition, ins: Instruction, o: State)
    requires j < |units| && o.pc == Pos(units, j) && units[j].line == Op(Some(c), ins)
    requires !Evaluate(c, o.flags)
    ensures Reaches(Flat(units), Roles(units), o, o.(pc := Pos(units, j + 1)))
  {
    hide Perform;
    UnitAt(units, j);
    ReachesStep(Flat(units), Roles(units), o, o.(pc := Pos(units, j + 1)));
  }

  /** A unit whose instruction jumps to a place between pairs. */
  lemma {:induction false} UnitJumps(units: seq<Unit>, j: nat, cond: Option<Condition>, ins: Instruction, o: State,
                                     w: State)
    requires GoodUnits(units)
    requires j < |units| && o.pc == Pos(units, j) && units[j].line == Op(cond, ins)
    requires cond.None? || Evaluate(cond.value, o.flags)
    requires Perform(Flat(units), ins, o) == Some(w) && w.pc in Entries(Roles(units))
    ensures Reaches(Flat(units), Roles(units), o, w)
  {
    hide Perform, GoodUnits;
    UnitAt(units, j);
    PairedUnits(units);
    NotIntoPair(Flat(units), Roles(units), o.pc, w.pc);
    ReachesStep(Flat(units), Roles(units), o, w);
  }

  lemma {:induction false} NotIntoPair(prog: seq<Line>, roles: seq<Role>, p: nat, q: nat)
    requires Paired(prog, roles) && p < |prog| && q in Entries(roles)
    ensures roles[p] == Leading ==> q != p + 1
  {
  }

  // ----- One instruction on both sides -----

  /** The instruction leaves for another place. */
  predicate Jumps(ins: Instruction, s: State) {
    match ins
    case Branch(_) => true
    case Call(_) => true
    case BranchReg(_) => true
    case CallReg(_) => true
    case BranchZero(nonzero, r, _) => s.regs[r].Num? && (s.regs[r].n == 0) != nonzero
    case LoadMany(_, _, _, _, pc) => pc
    case Pop(_, pc) => pc
    case _ => false
  }

  /** The output is where the source line is, up to labels. */
  predicate Facing(source: seq<Line>, temp: Spare, k: nat, q: nat) {
    k in Landings(source, temp) && q in Entries(OutputRoles(source, temp)) &&
    Settle(Output(source, temp), q) == Places(source, temp)[k]
  }

  lemma {:induction false} SettleTwice(prog: seq<Line>, i: nat)
    ensures Settle(prog, Settle(prog, i)) == Settle(prog, i)
    ensures i <= |prog| ==> i <= Settle(prog, i) <= |prog|
    decreases |prog| - i
  {
    if i < |prog| && prog[i].Label? {
      SettleTwice(prog, i + 1);
    }
  }

  lemma {:induction false} AtInside(source: seq<Line>, temp: Spare, k: nat)
    requires Eligible(source, temp) && k <= |source|
    ensures At(source, temp, k) <= |Output(source, temp)|
  {
    hide Eligible;
    PlacesAreEntries(source, temp, k);
  }

  lemma {:induction false} GoToAlike(source: seq<Line>, temp: Spare, l: nat, s: State, o: State)
    requires Eligible(source, temp) && Alike(Places(source, temp), {temp}, s, o) && GoTo(source, l, s).Some?
    ensures var t, w := GoTo(source, l, s).value, GoTo(Output(source, temp), l, o);
      w.Some? && Alike(Places(source, temp), {temp}, t, w.value) && Facing(source, temp, t.pc, w.value.pc)
  {
    hide Eligible, Emit, Fits, RegsAlike, MovedMem, Paired;
    var k := Find(source, l).value;
    FindSource(source, temp, l);
    ClosedAtLabel(source, temp, k);
    PlacesAreEntries(source, temp, k);
  }

  lemma {:induction false} GoToValueAlike(source: seq<Line>, temp: Spare, v: Value, s: State, o: State)
    requires Eligible(source, temp) && Alike(Places(source, temp), {temp}, s, o) && GoToValue(source, v, s).Some?
    requires Among(Landings(source, temp), v)
    ensures
      var t := GoToValue(source, v, s).value;
      var w := GoToValue(Output(source, temp), Moved(Places(source, temp), v), o);
      w.Some? && Alike(Places(source, temp), {temp}, t, w.value) && Facing(source, temp, t.pc, w.value.pc)
  {
    hide Eligible, Emit, Fits, RegsAlike, MovedMem, Paired, Settle;
    PlacesAreEntries(source, temp, v.at);
    AtInside(source, temp, v.at);
    SettleTwice(Output(source, temp), At(source, temp, v.at));
  }

  lemma {:induction false} AddressAlike(source: seq<Line>, temp: Spare, l: nat)
    requires Eligible(source, temp) && Find(source, l).Some?
    ensures var k := Find(source, l).value;
      && Find(Output(source, temp), l).Some?
      && Settle(source, k) in Landings(source, temp)
      && Settle(Output(source, temp), Find(Output(source, temp), l).value) == Places(source, temp)[Settle(source, k)]
  {
    hide Eligible, Emit, Fits;
    var k := Find(source, l).value;
    FindSource(source, temp, l);
    ClosedAtLabel(source, temp, k);
    SettledPlace(source, temp, k);
  }

  /** The return address is that of the line behind the call on both sides. */
  predicate ReturnsAlike(source: seq<Line>, temp: Spare, s: State, o: State) {
    Settle(source, s.pc + 1) in Landings(source, temp) &&
    Places(source, temp)[Settle(source, s.pc + 1)] == Settle(Output(source, temp), o.pc + 1)
  }

  ghost predicate SameEffect(source: seq<Line>, temp: Spare, ins: Instruction, s: State, o: State)
    requires Perform(source, ins, s).Some?
  {
    var t, w := Perform(source, ins, s).value, Perform(Output(source, temp), ins, o);
    w.Some? && Alike(Places(source, temp), {temp}, t, w.value) &&
    if Jumps(ins, s) then Facing(source, temp, t.pc, w.value.pc) else t.pc == s.pc + 1 && w.value.pc == o.pc + 1
  }

  lemma {:induction false} PopSame(source: seq<Line>, temp: Spare, ins: Instruction, db: bool, base: Reg, wb: bool,
                                   list: seq<Reg>, pc: bool, s: State, o: State)
    requires Eligible(source, temp) && Alike(Places(source, temp), {temp}, s, o)
    requires StateAmong(Landings(source, temp), s)
    requires temp != base && (ins == LoadMany(db, base, wb, list, pc) || ins == Pop(list, pc))
    requires ins.Pop? ==> !db && base == SP && wb
    requires Perform(source, ins, s).Some?
    ensures SameEffect(source, temp, ins, s, o)
  {
    hide PerformLoadMany, LoadFrom, Alike, GoToValue, Places, Output, Eligible, Landings, Facing;
    var t0, o0 := LoadManyAlike(Places(source, temp), {temp}, source, Output(source, temp), db, base, wb, list, pc, s,
                                o);
    if pc {
      var a := BlockStart(db, s.regs[base].n, BytesMoved(list, pc)) + 4 * |list|;
      LoadAmong(Landings(source, temp), s.mem, a, 4);
      GoToValueAlike(source, temp, LoadFrom(s.mem, a, 4).value, t0, o0);
    }
  }

  lemma {:induction false} BranchSame(source: seq<Line>, temp: Spare, ins: Instruction, s: State, o: State)
    requires Eligible(source, temp) && Alike(Places(source, temp), {temp}, s, o)
    requires StateAmong(Landings(source, temp), s)
    requires temp !in Tokens(ins)
    requires ins.Branch? || ins.Call? || ins.BranchReg? || ins.CallReg? || ins.BranchZero?
    requires ins.Call? || ins.CallReg? ==> ReturnsAlike(source, temp, s, o)
    requires Perform(source, ins, s).Some?
    ensures SameEffect(source, temp, ins, s, o)
  {
    hide Alike, GoTo, GoToValue, Places, Output, Eligible, Landings, Facing, RegistersAmong, MemoryAmong, Settle,
      Tokens;
    TokensOf(ins, temp);
    var back, back' := Code(Settle(source, s.pc + 1), true), Code(Settle(Output(source, temp), o.pc + 1), true);
    SetAlike(Places(source, temp), {temp}, s, o, LR, back);
    match ins
    case Branch(l) => GoToAlike(source, temp, l, s, o);
    case Call(l) =>
      MovedReturn(source, temp, s, o);
      GoToAlike(source, temp, l, Set(s, LR, back), Set(o, LR, back'));
    case BranchReg(r) =>
      RegisterAmong(Landings(source, temp), s.regs, r);
      RegAlike(Places(source, temp), {temp}, s, o, r);
      GoToValueAlike(source, temp, s.regs[r], s, o);
    case CallReg(r) =>
      MovedReturn(source, temp, s, o);
      RegisterAmong(Landings(source, temp), s.regs, r);
      RegAlike(Places(source, temp), {temp}, s, o, r);
      GoToValueAlike(source, temp, s.regs[r], Set(s, LR, back), Set(o, LR, back'));
    case BranchZero(_, r, l) =>
      RegAlike(Places(source, temp), {temp}, s, o, r);
      NextAlike(Places(source, temp), {temp}, s, o);
      if Jumps(ins, s) {
        GoToAlike(source, temp, l, s, o);
      }
  }

  lemma {:induction false} MovedReturn(source: seq<Line>, temp: Spare, s: State, o: State)
    requires ReturnsAlike(source, temp, s, o)
    ensures Moved(Places(source, temp), Code(Settle(source, s.pc + 1), true)) ==
      Code(Settle(Output(source, temp), o.pc + 1), true)
  {
    hide Places, Output;
    assert Settle(source, s.pc + 1) <= |source|;
  }

  lemma {:induction false} LiteralSame(source: seq<Line>, temp: Spare, ins: Instruction, s: State, o: State)
    requires Eligible(source, temp) && Alike(Places(source, temp), {temp}, s, o)
    requires temp !in Tokens(ins) && (ins.Literal? || ins.AddressOf?)
    requires Perform(source, ins, s).Some?
    ensures SameEffect(source, temp, ins, s, o)
  {
    hide Alike, Places, Output, Eligible, Settle, Find;
    if ins.Literal? && ins.c.Number? {
      WroteAlike(Places(source, temp), {temp}, s, o, ins.rt, Num(ins.c.n), s.flags);
      SameWrote(s, o, ins.rt, Num(ins.c.n), Num(ins.c.n));
    } else {
      var l, rd := if ins.Literal? then ins.c.l else ins.l, if ins.Literal? then ins.rt else ins.rd;
      var thumb := ins.Literal? && ins.c.thumb;
      AddressAlike(source, temp, l);
      var k := Settle(source, Find(source, l).value);
      var v := Code(k, thumb);
      InPlaces(source, temp, k);
      WroteAlike(Places(source, temp), {temp}, s, o, rd, v, s.flags);
      SameWrote(s, o, rd, v, Moved(Places(source, temp), v));
    }
    FlagsAlike(Places(source, temp), {temp}, s, o);
  }

  lemma {:induction false} InPlaces(source: seq<Line>, temp: Spare, k: nat)
    requires k in Landings(source, temp)
    ensures k < |Places(source, temp)|
  {
  }

  /** On alike states an instruction has the same effect in the source and in the output. */
  lemma {:induction false} SameInstruction(source: seq<Line>, temp: Spare, ins: Instruction, s: State, o: State)
    requires Eligible(source, temp) && Alike(Places(source, temp), {temp}, s, o)
    requires StateAmong(Landings(source, temp), s)
    requires temp !in Tokens(ins)
    requires ins.Call? || ins.CallReg? ==> ReturnsAlike(source, temp, s, o)
    requires Perform(source, ins, s).Some?
    ensures SameEffect(source, temp, ins, s, o)
  {
    hide Perform, Alike, Places, Output, Eligible, Landings, Facing, StateAmong, ReturnsAlike, Tokens;
    if GoesOn(ins) {
      GoesOnAlike(Places(source, temp), {temp}, source, Output(source, temp), ins, s, o);
    } else {
      match ins
      case LoadMany(db, base, wb, list, pc) =>
        ManyTokens(ins, temp);
        PopSame(source, temp, ins, db, base, wb, list, pc, s, o);
      case Pop(list, pc) => PopSame(source, temp, ins, false, SP, true, list, pc, s, o);
      case Literal(_, _) => LiteralSame(source, temp, ins, s, o);
      case AddressOf(_, _) => LiteralSame(source, temp, ins, s, o);
      case _ => BranchSame(source, temp, ins, s, o);
    }
  }

  // ----- What an instruction becomes, executed -----

  /** The paired run of the output. */
  ghost predicate Gets(source: seq<Line>, temp: Spare, o: State, w: State) {
    Reaches(Output(source, temp), OutputRoles(source, temp), o, w)
  }

  function Units(source: seq<Line>, temp: Spare): seq<Unit> {
    Made(source, temp, |source|)
  }

  /** The output stands at a unit. */
  predicate AtUnit(source: seq<Line>, temp: Spare, j: nat, o: State) {
    j <= |Units(source, temp)| && o.pc == Pos(Units(source, temp), j)
  }

  /** The units from j on are the given ones. */
  predicate UnitsAt(source: seq<Line>, temp: Spare, j: nat, us: seq<Unit>) {
    j + |us| <= |Units(source, temp)| && Units(source, temp)[j..j + |us|] == us
  }

  /** The effect of an instruction on both sides, the output having come to unit `next` if it goes on. */
  predicate Followed(source: seq<Line>, temp: Spare, ins: Instruction, s: State, t: State, next: nat, w: State) {
    Alike(Places(source, temp), {temp}, t, w) &&
    if Jumps(ins, s) then Facing(source, temp, t.pc, w.pc) else t.pc == s.pc + 1 && AtUnit(source, temp, next, w)
  }

  /** Calls return to the address behind unit `next`. */
  predicate Returning(source: seq<Line>, temp: Spare, ins: Instruction, s: State, next: nat)
    requires next <= |Units(source, temp)|
  {
    ins.Call? || ins.CallReg? ==>
      Settle(source, s.pc + 1) in Landings(source, temp) &&
      Places(source, temp)[Settle(source, s.pc + 1)] == Settle(Output(source, temp), Pos(Units(source, temp), next))
  }

  lemma {:induction false} GetsTrans(source: seq<Line>, temp: Spare, a: State, b: State, c: State)
    requires Gets(source, temp, a, b) && Gets(source, temp, b, c)
    ensures Gets(source, temp, a, c)
  {
    hide Reaches, Output, OutputRoles;
    ReachesTrans(Output(source, temp), OutputRoles(source, temp), a, b, c);
  }

  /** One unit with an unconditional instruction that goes on. */
  lemma {:induction false} Runs(source: seq<Line>, temp: Spare, j: nat, ins: Instruction, o: State, w: State)
    requires AtUnit(source, temp, j, o) && j < |Units(source, temp)| && Units(source, temp)[j].line == Do(ins)
    requires Perform(Output(source, temp), ins, o) == Some(w) && w.pc == o.pc + 1
    ensures Gets(source, temp, o, w.(pc := Pos(Units(source, temp), j + 1)))
  {
    hide Perform, Reaches;
    UnitRuns(Units(source, temp), j, None, ins, o, w);
  }

  /** The same instruction, once or twice. */
  lemma {:induction false} SameRuns(source: seq<Line>, temp: Spare, j: nat, cond: Option<Condition>, ins: Instruction,
                                    s: State, o: State)
    returns (w: State)
    requires Eligible(source, temp) && Alike(Places(source, temp), {temp}, s, o)
    requires StateAmong(Landings(source, temp), s)
    requires temp !in Tokens(ins) && Perform(source, ins, s).Some?
    requires AtUnit(source, temp, j, o) && j < |Units(source, temp)| && Units(source, temp)[j].line == Op(cond, ins)
    requires cond.None? || Evaluate(cond.value, o.flags)
    requires ins.Call? || ins.CallReg? ==> Units(source, temp)[j].Once?
    requires Returning(source, temp, ins, s, j + 1)
    ensures Gets(source, temp, o, w) && Followed(source, temp, ins, s, Perform(source, ins, s).value, j + 1, w)
  {
    hide Perform, Alike, Places, Landings, StateAmong, Reaches, Tokens, Settle, Eligible;
    UnitAt(Units(source, temp), j);
    SameInstruction(source, temp, ins, s, o);
    var v := Perform(Output(source, temp), ins, o).value;
    if Jumps(ins, s) {
      w := v;
      MadeGood(source, temp, |source|);
      UnitJumps(Units(source, temp), j, cond, ins, o, v);
    } else {
      w := v.(pc := Pos(Units(source, temp), j + 1));
      UnitRuns(Units(source, temp), j, cond, ins, o, v);
      MovedPc(Places(source, temp), {temp}, Perform(source, ins, s).value, v, w.pc);
    }
  }

  /** An instruction computed into the spare register, and the result copied from there. */
  lemma {:induction false} SpareRuns(source: seq<Line>, temp: Spare, j: nat, ins: Instruction, s: State, o: State)
    returns (w: State)
    requires Alike(Places(source, temp), {temp}, s, o) && temp !in Tokens(ins) && Perform(source, ins, s).Some?
    requires Produces(ins) && !ins.Short? && !ins.Insert?
    requires AtUnit(source, temp, j, o)
    requires UnitsAt(source, temp, j, [Twice(Do(WithFirst(ins, temp))), Twice(Do(Copy(Destination(ins), temp)))])
    ensures Gets(source, temp, o, w) && Followed(source, temp, ins, s, Perform(source, ins, s).value, j + 2, w)
  {
    hide Perform, Alike, Places, Reaches, Output, Tokens, Gets;
    var rd := Destination(ins);
    var t := Perform(source, ins, s).value;
    ProducedAlike(Places(source, temp), {temp}, source, Output(source, temp), ins, temp, s, o);
    var v := Moved(Places(source, temp), t.regs[rd]);
    TwoUnits(source, temp, j, Twice(Do(WithFirst(ins, temp))), Twice(Do(Copy(rd, temp))));
    var a := Wrote(o, temp, v, t.flags);
    Runs(source, temp, j, WithFirst(ins, temp), o, a);
    var b := a.(pc := Pos(Units(source, temp), j + 1));
    CopyPerforms(Output(source, temp), rd, temp, b);
    Runs(source, temp, j + 1, Copy(rd, temp), b, Next(Set(b, rd, v)));
    w := Set(b, rd, v).(pc := Pos(Units(source, temp), j + 2));
    GetsTrans(source, temp, o, b, w);
    SpareAlike(Places(source, temp), temp, s, o, rd, t.regs[rd], t.flags, w);
  }

  lemma {:induction false} TwoUnits(source: seq<Line>, temp: Spare, j: nat, a: Unit, b: Unit)
    requires UnitsAt(source, temp, j, [a, b])
    ensures Units(source, temp)[j] == a && Units(source, temp)[j + 1] == b
  {
    var units := Units(source, temp);
    assert units[j] == units[j..j + 2][0] && units[j + 1] == units[j..j + 2][1];
  }

  lemma {:induction false} CopyPerforms(prog: seq<Line>, rd: Reg, r: Reg, o: State)
    ensures Perform(prog, Copy(rd, r), o) == Some(Next(Set(o, rd, o.regs[r])))
  {
  }

  lemma {:induction false} SpareAlike(place: seq<nat>, temp: Spare, s: State, o: State, rd: Reg, v: Value, f: Flags,
                                      w: State)
    requires Alike(place, {temp}, s, o)
    requires w.regs == o.regs[temp := Moved(place, v)][rd := Moved(place, v)] && w.flags == f && w.mem == o.mem
    ensures Alike(place, {temp}, Wrote(s, rd, v, f), w)
  {
    hide MovedMem, Moved;
  }

  /** What an operation the pass knows becomes. */
  lemma {:induction false} KnownRuns(source: seq<Line>, temp: Spare, j: nat, ins: Instruction, s: State, o: State)
    returns (w: State)
    requires Eligible(source, temp) && Alike(Places(source, temp), {temp}, s, o)
    requires StateAmong(Landings(source, temp), s)
    requires temp !in Tokens(ins) && Perform(source, ins, s).Some? && Replaceable(ins)
    requires !ins.Call? && !ins.LoadMany? && !ins.StoreMany? && !ins.Push? && !ins.Pop?
    requires (ins.Load? || ins.Store?) ==> ins.index.Offset?
    requires AtUnit(source, temp, j, o) && UnitsAt(source, temp, j, ExpandKnown(ins, temp))
    requires Returning(source, temp, ins, s, j + |ExpandKnown(ins, temp)|)
    ensures Gets(source, temp, o, w)
    ensures Followed(source, temp, ins, s, Perform(source, ins, s).value, j + |ExpandKnown(ins, temp)|, w)
  {
    hide Perform, Alike, Places, Output, Landings, StateAmong, Gets, Eligible, Followed, Settle;
    if RepeatsFirst(ins) && Known(ins) {
      RepeatedProduces(ins);
      w := SpareRuns(source, temp, j, ins, s, o);
    } else {
      FirstUnit(source, temp, j, ExpandKnown(ins, temp));
      w := SameRuns(source, temp, j, None, ins, s, o);
    }
  }

  lemma {:induction false} FirstUnit(source: seq<Line>, temp: Spare, j: nat, us: seq<Unit>)
    requires UnitsAt(source, temp, j, us) && us != []
    ensures j < |Units(source, temp)| && Units(source, temp)[j] == us[0]
  {
    assert Units(source, temp)[j..j + |us|][0] == Units(source, temp)[j];
  }

  lemma {:induction false} RepeatedProduces(ins: Instruction)
    requires RepeatsFirst(ins) && Known(ins) && Replaceable(ins)
    requires !ins.Call? && !ins.LoadMany? && !ins.StoreMany? && !ins.Push? && !ins.Pop?
    requires (ins.Load? || ins.Store?) ==> ins.index.Offset?
    ensures Produces(ins) && !ins.Short? && !ins.Insert? && Tokens(ins)[0] == Destination(ins)
  {
    var t := Tokens(ins);
    assert |t| > 1 ==> t[1..] == [t[1]] + t[2..];
  }

  // ----- Base registers -----

  lemma {:induction false} ModSum(b: int, bytes: nat)
    ensures (b + bytes % WORD_LIMIT) % WORD_LIMIT == (b + bytes) % WORD_LIMIT
    ensures (b - bytes % WORD_LIMIT) % WORD_LIMIT == (b - bytes) % WORD_LIMIT
  {
    var q, r := bytes / WORD_LIMIT, bytes % WORD_LIMIT;
    assert bytes == WORD_LIMIT * q + r;
    Residues.SameResidue(b + bytes, b + r, q);
    Residues.SameResidue(b - bytes, b - r, -q);
  }

  lemma {:induction false} ModBack(b: Word, n: Word)
    ensures ((b + n) % WORD_LIMIT - n) % WORD_LIMIT == b && ((b - n) % WORD_LIMIT + n) % WORD_LIMIT == b
  {
    var j, k := (b + n) / WORD_LIMIT, (b - n) / WORD_LIMIT;
    Residues.ResidueIs((b + n) % WORD_LIMIT - n, -j, b);
    Residues.ResidueIs((b - n) % WORD_LIMIT + n, -k, b);
  }

  lemma {:induction false} AddedWord(b: Word, n: Word, c: bool, f: Flags)
    ensures Compute(Add, b, Shift(n, c), f).n == (b + n) % WORD_LIMIT
    ensures Compute(Sub, b, Shift(n, c), f).n == (b - n) % WORD_LIMIT
  {
    hide FlagsOf, Signed;
  }

  lemma {:induction false} MovedBase(db: bool, b: Word, bytes: nat, c: bool, f: Flags)
    ensures Compute(Towards(db), b, Shift(bytes % WORD_LIMIT, c), f).n == BlockEnd(db, b, bytes)
    ensures Compute(Towards(!db), BlockEnd(db, b, bytes), Shift(bytes % WORD_LIMIT, c), f).n == b
  {
    hide Compute;
    var n := bytes % WORD_LIMIT;
    AddedWord(b, n, c, f);
    AddedWord(BlockEnd(db, b, bytes), n, c, f);
    ModSum(b, bytes);
    ModBack(b, n);
  }

  lemma {:induction false} ImmediatePerforms(prog: seq<Line>, op: AluOp, rd: Reg, rn: Reg, n: Word, o: State)
    requires o.regs[rn].Num?
    ensures Perform(prog, Data(op, false, rd, rn, Imm(n)), o) ==
      Some(Next(Set(o, rd, Num(Compute(op, o.regs[rn].n, Shift(n, o.flags.c), o.flags).n))))
  {
    hide Compute;
  }

  /** The base register moved by way of the spare one. */
  lemma {:induction false} BaseRuns(source: seq<Line>, temp: Spare, j: nat, op: AluOp, base: Reg, n: Word, o: State)
    returns (w: State)
    requires temp != base && o.regs[base].Num?
    requires AtUnit(source, temp, j, o) && UnitsAt(source, temp, j, MoveBase(op, base, n, temp))
    ensures Gets(source, temp, o, w) && AtUnit(source, temp, j + 2, w)
    ensures var r := Num(Compute(op, o.regs[base].n, Shift(n, o.flags.c), o.flags).n);
      w.regs == o.regs[temp := r][base := r] && w.flags == o.flags && w.mem == o.mem
  {
    hide Perform, Output, Gets, Compute;
    var r := Num(Compute(op, o.regs[base].n, Shift(n, o.flags.c), o.flags).n);
    TwoUnits(source, temp, j, MoveBase(op, base, n, temp)[0], MoveBase(op, base, n, temp)[1]);
    ImmediatePerforms(Output(source, temp), op, temp, base, n, o);
    Runs(source, temp, j, Data(op, false, temp, base, Imm(n)), o, Next(Set(o, temp, r)));
    var b := Set(o, temp, r).(pc := Pos(Units(source, temp), j + 1));
    CopyPerforms(Output(source, temp), base, temp, b);
    Runs(source, temp, j + 1, Copy(base, temp), b, Next(Set(b, base, r)));
    w := Set(b, base, r).(pc := Pos(Units(source, temp), j + 2));
    GetsTrans(source, temp, o, b, w);
  }

  lemma {:induction false} SplitUnits(source: seq<Line>, temp: Spare, j: nat, a: seq<Unit>, b: seq<Unit>)
    requires UnitsAt(source, temp, j, a + b)
    ensures UnitsAt(source, temp, j, a) && UnitsAt(source, temp, j + |a|, b)
  {
    hide Made;
    var units := Units(source, temp);
    assert units[j..j + |a|] == units[j..j + |a + b|][..|a|] == a;
    assert units[j + |a|..j + |a| + |b|] == units[j..j + |a + b|][|a|..] == b;
  }

  lemma {:induction false} SetBoth(place: seq<nat>, temp: Spare, s: State, o: State, base: Reg, n: Word, w: State)
    requires Alike(place, {temp}, s, o) && w.regs == o.regs[temp := Num(n)][base := Num(n)] && w.flags == o.flags
    requires w.mem == o.mem
    ensures Alike(place, {temp}, Set(s, base, Num(n)), w)
  {
    hide MovedMem;
  }

  lemma {:induction false} PlainRuns(source: seq<Line>, temp: Spare, j: nat, ins: Instruction, s: State, o: State)
    returns (a: State)
    requires Alike(Places(source, temp), {temp}, s, o)
    requires temp !in Tokens(ins) && (ins.Load? || ins.Store?) && !ins.index.Offset?
    requires Perform(source, PlainOf(ins), s).Some?
    requires AtUnit(source, temp, j, o) && j < |Units(source, temp)|
    requires Units(source, temp)[j] == Twice(Do(PlainOf(ins)))
    ensures Gets(source, temp, o, a) && AtUnit(source, temp, j + 1, a)
    ensures Alike(Places(source, temp), {temp}, Perform(source, PlainOf(ins), s).value, a)
  {
    hide Alike, Places, Output, Gets, Perform, Tokens, Made, Settle, Facing;
    TokensOf(ins, temp);
    PlainTokens(ins, PlainOf(ins), temp);
    GoesOnAlike(Places(source, temp), {temp}, source, Output(source, temp), PlainOf(ins), s, o);
    var v := Perform(Output(source, temp), PlainOf(ins), o).value;
    Runs(source, temp, j, PlainOf(ins), o, v);
    a := v.(pc := Pos(Units(source, temp), j + 1));
    MovedPc(Places(source, temp), {temp}, Perform(source, PlainOf(ins), s).value, v, a.pc);
  }

  /** A transfer with writeback: the transfer without it, and the base moved afterwards. */
  lemma {:induction false} TransferRuns(source: seq<Line>, temp: Spare, j: nat, ins: Instruction, s: State, o: State)
    returns (w: State)
    requires Alike(Places(source, temp), {temp}, s, o)
    requires temp !in Tokens(ins) && Perform(source, ins, s).Some?
    requires (ins.Load? || ins.Store?) && !ins.index.Offset?
    requires AtUnit(source, temp, j, o) && UnitsAt(source, temp, j, ExpandOp(ins, temp, 0))
    ensures Gets(source, temp, o, w)
    ensures Followed(source, temp, ins, s, Perform(source, ins, s).value, j + 3, w)
  {
    hide Alike, Places, Output, Gets, Perform, Compute, Tokens, Made, Settle, Facing;
    TokensOf(ins, temp);
    SplitUnits(source, temp, j, [Twice(Do(PlainOf(ins)))], MoveBase(Add, ins.base, ins.index.n, temp));
    FirstUnit(source, temp, j, [Twice(Do(PlainOf(ins)))]);
    PlainTransfer(source, ins, PlainOf(ins), s);
    var t0 := Perform(source, PlainOf(ins), s).value;
    var a := PlainRuns(source, temp, j, ins, s, o);
    RegAlike(Places(source, temp), {temp}, t0, a, ins.base);
    w := BaseRuns(source, temp, j + 1, Add, ins.base, ins.index.n, a);
    GetsTrans(source, temp, o, a, w);
    AddedWord(s.regs[ins.base].n, ins.index.n, a.flags.c, a.flags);
    SetBoth(Places(source, temp), temp, t0, a, ins.base, (s.regs[ins.base].n + ins.index.n) % WORD_LIMIT, w);
  }

  lemma {:induction false} PlainTokens(ins: Instruction, plain: Instruction, temp: Spare)
    requires (ins.Load? || ins.Store?) && !ins.index.Offset? && temp != ins.rt && temp != ins.base
    requires plain == PlainOf(ins)
    ensures temp !in Tokens(plain)
  {
  }

  /** With writeback is without writeback and the base set to the sum. */
  lemma {:induction false} PlainTransfer(source: seq<Line>, ins: Instruction, plain: Instruction, s: State)
    requires (ins.Load? || ins.Store?) && !ins.index.Offset? && Perform(source, ins, s).Some?
    requires plain == PlainOf(ins)
    ensures s.regs[ins.base].Num? && Perform(source, plain, s).Some?
    ensures var t := Perform(source, plain, s).value;
      t.regs[ins.base] == s.regs[ins.base] && t.flags == s.flags && t.pc == s.pc + 1 &&
      Perform(source, ins, s) == Some(Set(t, ins.base, Num((s.regs[ins.base].n + ins.index.n) % WORD_LIMIT)))
  {
    hide LoadFrom, StoreTo, ShiftWord, CellOf;
    var b := s.regs[ins.base].n;
    assert (b + 0) % WORD_LIMIT == b;
    if ins.Load? {
      var t := Perform(source, plain, s).value;
      SetsCommute(s.regs, ins.base, Num((b + ins.index.n) % WORD_LIMIT), ins.rt, t.regs[ins.rt]);
    }
  }

  lemma {:induction false} SetsCommute(regs: Registers, a: Reg, v: Value, b: Reg, w: Value)
    requires a != b
    ensures regs[a := v][b := w] == regs[b := w][a := v]
  {
  }

  // ----- Block transfers -----

  /** Writeback on a block store is the store without it and the base moved. */
  lemma {:induction false} PlainStoreMany(db: bool, base: Reg, list: seq<Reg>, s: State)
    requires PerformStoreMany(db, base, true, list, s).Some?
    ensures s.regs[base].Num? && PerformStoreMany(db, base, false, list, s).Some?
    ensures var t := PerformStoreMany(db, base, false, list, s).value;
      t.regs == s.regs &&
      PerformStoreMany(db, base, true, list, s) ==
        Some(Set(t, base, Num(BlockEnd(db, s.regs[base].n, BytesMoved(list, false)))))
  {
    hide StoreTo, CellsOfMany;
  }

  lemma {:induction false} StoreBackRuns(source: seq<Line>, temp: Spare, j: nat, db: bool, base: Reg, list: seq<Reg>,
                                         s: State, o: State)
    returns (w: State)
    requires Alike(Places(source, temp), {temp}, s, o) && temp != base && temp !in list
    requires PerformStoreMany(db, base, true, list, s).Some?
    requires AtUnit(source, temp, j, o) && UnitsAt(source, temp, j, ExpandStoreMany(db, base, true, list, temp))
    ensures Gets(source, temp, o, w) && AtUnit(source, temp, j + 3, w)
    ensures Alike(Places(source, temp), {temp}, PerformStoreMany(db, base, true, list, s).value, w)
    ensures PerformStoreMany(db, base, true, list, s).value.pc == s.pc + 1
  {
    hide Alike, Places, Output, Gets, PerformStoreMany, Compute, BlockEnd;
    var n := MovedBytes(list, false);
    var plain := StoreMany(db, base, false, list);
    SplitUnits(source, temp, j, [Twice(Do(plain))], MoveBase(Towards(db), base, n, temp));
    FirstUnit(source, temp, j, [Twice(Do(plain))]);
    PlainStoreMany(db, base, list, s);
    var t0 := PerformStoreMany(db, base, false, list, s).value;
    StoreManyAlike(Places(source, temp), {temp}, db, base, false, list, s, o);
    var v := PerformStoreMany(db, base, false, list, o).value;
    Runs(source, temp, j, plain, o, v);
    var a := v.(pc := Pos(Units(source, temp), j + 1));
    RegAlike(Places(source, temp), {temp}, t0, v, base);
    w := BaseRuns(source, temp, j + 1, Towards(db), base, n, a);
    GetsTrans(source, temp, o, a, w);
    MovedPc(Places(source, temp), {temp}, t0, v, a.pc);
    MovedBase(db, s.regs[base].n, BytesMoved(list, false), a.flags.c, a.flags);
    SetBoth(Places(source, temp), temp, t0, a, base, BlockEnd(db, s.regs[base].n, BytesMoved(list, false)), w);
  }

  /** A block store whose base is copied to the spare register first. */
  lemma {:induction false} StoreCopiedRuns(source: seq<Line>, temp: Spare, j: nat, db: bool, base: Reg, list: seq<Reg>,
                                           s: State, o: State)
    returns (w: State)
    requires Alike(Places(source, temp), {temp}, s, o) && temp != base && temp !in list
    requires PerformStoreMany(db, base, false, list, s).Some?
    requires AtUnit(source, temp, j, o)
    requires UnitsAt(source, temp, j, [Twice(Do(Copy(temp, base))), Twice(Do(StoreMany(db, temp, false, list)))])
    ensures Gets(source, temp, o, w) && AtUnit(source, temp, j + 2, w)
    ensures Alike(Places(source, temp), {temp}, PerformStoreMany(db, base, false, list, s).value, w)
    ensures PerformStoreMany(db, base, false, list, s).value.pc == s.pc + 1
  {
    hide Alike, Places, Output, Gets, PerformStoreMany;
    TwoUnits(source, temp, j, Twice(Do(Copy(temp, base))), Twice(Do(StoreMany(db, temp, false, list))));
    CopyPerforms(Output(source, temp), temp, base, o);
    Runs(source, temp, j, Copy(temp, base), o, Next(Set(o, temp, o.regs[base])));
    var a := Set(o, temp, o.regs[base]).(pc := Pos(Units(source, temp), j + 1));
    FreeAlike(Places(source, temp), {temp}, s, o, temp, o.regs[base]);
    MovedPc(Places(source, temp), {temp}, s, Set(o, temp, o.regs[base]), a.pc);
    StoreManyAlike(Places(source, temp), {temp}, db, base, false, list, s, a);
    SameBase(db, base, temp, list, a);
    var v := PerformStoreMany(db, base, false, list, a).value;
    Runs(source, temp, j + 1, StoreMany(db, temp, false, list), a, v);
    w := v.(pc := Pos(Units(source, temp), j + 2));
    GetsTrans(source, temp, o, a, w);
    MovedPc(Places(source, temp), {temp}, PerformStoreMany(db, base, false, list, s).value, v, w.pc);
  }

  lemma {:induction false} SameBase(db: bool, base: Reg, temp: Spare, list: seq<Reg>, o: State)
    requires temp != base && o.regs[temp] == o.regs[base]
    ensures PerformStoreMany(db, temp, false, list, o) == PerformStoreMany(db, base, false, list, o)
  {
    hide CellsOfMany, StoreTo;
  }

  lemma {:induction false} StoreManyUnits(ins: Instruction, temp: Spare)
    requires temp !in Tokens(ins) && (ins.StoreMany? || ins.Push?)
    ensures ExpandOp(ins, temp, 0) ==
      if ins.Push? then ExpandStoreMany(true, SP, true, ins.list, temp)
      else ExpandStoreMany(ins.db, ins.base, ins.wb, ins.list, temp)
    ensures ins.Push? || ins.wb ==> |ExpandOp(ins, temp, 0)| == 3
    ensures ins.StoreMany? && !ins.wb ==>
      ExpandOp(ins, temp, 0) ==
      if ins.base in ins.list
      then [Twice(Do(Copy(temp, ins.base))), Twice(Do(StoreMany(ins.db, temp, false, ins.list)))]
      else [Twice(Do(ins))]
  {
    hide Tokens;
  }

  lemma {:induction false} StoreManyRuns(source: seq<Line>, temp: Spare, j: nat, ins: Instruction, s: State, o: State)
    returns (w: State)
    requires Eligible(source, temp) && Alike(Places(source, temp), {temp}, s, o)
    requires StateAmong(Landings(source, temp), s)
    requires temp !in Tokens(ins) && Perform(source, ins, s).Some? && (ins.StoreMany? || ins.Push?)
    requires AtUnit(source, temp, j, o) && UnitsAt(source, temp, j, ExpandOp(ins, temp, 0))
    ensures Gets(source, temp, o, w)
    ensures Followed(source, temp, ins, s, Perform(source, ins, s).value, j + |ExpandOp(ins, temp, 0)|, w)
  {
    hide Alike, Places, Output, Gets, PerformStoreMany, Tokens, Eligible, StateAmong, Landings, Settle, ExpandOp,
      ExpandStoreMany;
    ManyTokens(ins, temp);
    StoreManyUnits(ins, temp);
    if ins.Push? {
      w := StoreBackRuns(source, temp, j, true, SP, ins.list, s, o);
    } else if ins.wb {
      w := StoreBackRuns(source, temp, j, ins.db, ins.base, ins.list, s, o);
    } else if ins.base in ins.list {
      w := StoreCopiedRuns(source, temp, j, ins.db, ins.base, ins.list, s, o);
    } else {
      FirstUnit(source, temp, j, ExpandOp(ins, temp, 0));
      w := SameRuns(source, temp, j, None, ins, s, o);
    }
  }

  lemma {:induction false} PlainLoadMany(prog: seq<Line>, db: bool, base: Reg, list: seq<Reg>, s: State)
    requires PerformLoadMany(prog, db, base, true, list, false, s).Some?
    ensures s.regs[base].Num? && PerformLoadMany(prog, db, base, false, list, false, s).Some?
    ensures var t := PerformLoadMany(prog, db, base, false, list, false, s).value;
      t.regs[base] == s.regs[base] && t.flags == s.flags && t.pc == s.pc + 1 &&
      PerformLoadMany(prog, db, base, true, list, false, s) ==
        Some(Set(t, base, Num(BlockEnd(db, s.regs[base].n, BytesMoved(list, false)))))
  {
    hide LoadedMany;
    LoadedManyAgree(s.regs, s.regs, s.mem, BlockStart(db, s.regs[base].n, BytesMoved(list, false)), list);
  }

  lemma {:induction false} LoadBackRuns(source: seq<Line>, temp: Spare, j: nat, db: bool, base: Reg, list: seq<Reg>,
                                        s: State, o: State)
    returns (w: State)
    requires Alike(Places(source, temp), {temp}, s, o) && temp != base && temp !in list
    requires PerformLoadMany(source, db, base, true, list, false, s).Some?
    requires AtUnit(source, temp, j, o) && UnitsAt(source, temp, j, ExpandLoadMany(db, base, true, list, false, temp))
    ensures Gets(source, temp, o, w) && AtUnit(source, temp, j + 3, w)
    ensures Alike(Places(source, temp), {temp}, PerformLoadMany(source, db, base, true, list, false, s).value, w)
    ensures PerformLoadMany(source, db, base, true, list, false, s).value.pc == s.pc + 1
  {
    hide Alike, Places, Output, Gets, PerformLoadMany, Compute, BlockEnd;
    var n := MovedBytes(list, false);
    var plain := LoadMany(db, base, false, list, false);
    SplitUnits(source, temp, j, [Twice(Do(plain))], MoveBase(Towards(db), base, n, temp));
    FirstUnit(source, temp, j, [Twice(Do(plain))]);
    PlainLoadMany(source, db, base, list, s);
    var t0 := PerformLoadMany(source, db, base, false, list, false, s).value;
    var t1, o1 := LoadManyAlike(Places(source, temp), {temp}, source, Output(source, temp), db, base, false, list,
                                false, s, o);
    var v := PerformLoadMany(Output(source, temp), db, base, false, list, false, o).value;
    Runs(source, temp, j, plain, o, v);
    var a := v.(pc := Pos(Units(source, temp), j + 1));
    RegAlike(Places(source, temp), {temp}, t0, v, base);
    w := BaseRuns(source, temp, j + 1, Towards(db), base, n, a);
    GetsTrans(source, temp, o, a, w);
    MovedPc(Places(source, temp), {temp}, t0, v, a.pc);
    MovedBase(db, s.regs[base].n, BytesMoved(list, false), a.flags.c, a.flags);
    SetBoth(Places(source, temp), temp, t0, a, base, BlockEnd(db, s.regs[base].n, BytesMoved(list, false)), w);
  }

  /** Registers outside the list may be set before loading instead of after. */
  lemma {:induction false} LoadedManySet(regs: Registers, mem: Memory, address: int, list: seq<Reg>, base: Reg,
                                         v: Value)
    requires base !in list && LoadedMany(regs, mem, address, list).Some?
    ensures var l := LoadedMany(regs[base := v], mem, address, list);
      l.Some? && l.value == LoadedMany(regs, mem, address, list).value[base := v]
    decreases |list|
  {
    hide LoadFrom;
    if list != [] {
      var u := LoadFrom(mem, address, 4).value;
      SetsCommute(regs, base, v, list[0], u);
      LoadedManySet(regs[list[0] := u], mem, address + 4, list[1..], base, v);
    }
  }

  /** A block load through the spare register, which holds the base address. */
  lemma {:induction false} SpareLoads(source: seq<Line>, temp: Spare, db: bool, b: Word, list: seq<Reg>, pc: bool,
                                      s: State, o: State)
    returns (t: Option<State>, w: State)
    requires Eligible(source, temp) && Alike(Places(source, temp), {temp}, s, o)
    requires StateAmong(Landings(source, temp), s)
    requires temp !in list && o.regs[temp] == Num(b)
    requires var a := BlockStart(db, b, BytesMoved(list, pc));
      a % 4 == 0 && LoadedMany(s.regs, s.mem, a, list).Some? && (pc ==> LoadFrom(s.mem, a + 4 * |list|, 4).Some?)
    ensures var a := BlockStart(db, b, BytesMoved(list, pc));
      var loaded := s.(regs := LoadedMany(s.regs, s.mem, a, list).value);
      t == if pc then GoToValue(source, LoadFrom(s.mem, a + 4 * |list|, 4).value, loaded) else Some(Next(loaded))
    ensures t.Some? ==>
      Perform(Output(source, temp), LoadMany(db, temp, false, list, pc), o) == Some(w) &&
      Alike(Places(source, temp), {temp}, t.value, w) &&
      if pc then Facing(source, temp, t.value.pc, w.pc) else w.pc == o.pc + 1
  {
    hide LoadedMany, LoadFrom, MovedMem, RegsAlike, Places, Output, Eligible, Landings, RegistersAmong, MemoryAmong,
      GoToValue, Facing;
    var a := BlockStart(db, b, BytesMoved(list, pc));
    LoadedManyMoved(Places(source, temp), {temp}, s.regs, o.regs, s.mem, a, list);
    var loaded := s.(regs := LoadedMany(s.regs, s.mem, a, list).value);
    var loaded' := o.(regs := LoadedMany(o.regs, o.mem, a, list).value);
    if pc {
      LoadMoved(Places(source, temp), s.mem, a + 4 * |list|, 4);
      var v := LoadFrom(s.mem, a + 4 * |list|, 4).value;
      LoadAmong(Landings(source, temp), s.mem, a + 4 * |list|, 4);
      t := GoToValue(source, v, loaded);
      if t.Some? {
        GoToValueAlike(source, temp, v, loaded, loaded');
        w := GoToValue(Output(source, temp), Moved(Places(source, temp), v), loaded').value;
      } else {
        w := o;
      }
    } else {
      t, w := Some(Next(loaded)), Next(loaded');
    }
  }

  /** The unit with the block load through the spare register. */
  lemma {:induction false} SpareUnit(source: seq<Line>, temp: Spare, j: nat, db: bool, b: Word, list: seq<Reg>,
                                     pc: bool, s: State, o: State)
    returns (t: Option<State>, w: State)
    requires Eligible(source, temp) && Alike(Places(source, temp), {temp}, s, o)
    requires StateAmong(Landings(source, temp), s)
    requires temp !in list && o.regs[temp] == Num(b)
    requires var a := BlockStart(db, b, BytesMoved(list, pc));
      a % 4 == 0 && LoadedMany(s.regs, s.mem, a, list).Some? && (pc ==> LoadFrom(s.mem, a + 4 * |list|, 4).Some?)
    requires AtUnit(source, temp, j, o) && j < |Units(source, temp)|
    requires Units(source, temp)[j] == Twice(Do(LoadMany(db, temp, false, list, pc)))
    ensures var a := BlockStart(db, b, BytesMoved(list, pc));
      var loaded := s.(regs := LoadedMany(s.regs, s.mem, a, list).value);
      t == if pc then GoToValue(source, LoadFrom(s.mem, a + 4 * |list|, 4).value, loaded) else Some(Next(loaded))
    ensures t.Some? ==>
      Gets(source, temp, o, w) && Alike(Places(source, temp), {temp}, t.value, w) &&
      if pc then Facing(source, temp, t.value.pc, w.pc) else AtUnit(source, temp, j + 1, w)
  {
    hide LoadedMany, LoadFrom, Alike, Places, Landings, StateAmong, GoToValue, Perform, Eligible, Settle, Reaches;
    var v;
    t, v := SpareLoads(source, temp, db, b, list, pc, s, o);
    w := v;
    if t.Some? {
      if pc {
        MadeGood(source, temp, |source|);
        UnitJumps(Units(source, temp), j, None, LoadMany(db, temp, false, list, pc), o, v);
      } else {
        Runs(source, temp, j, LoadMany(db, temp, false, list, pc), o, v);
        w := v.(pc := Pos(Units(source, temp), j + 1));
        MovedPc(Places(source, temp), {temp}, t.value, v, w.pc);
      }
    }
  }

  /** A block load whose base is copied to the spare register first. */
  lemma {:induction false} LoadCopiedRuns(source: seq<Line>, temp: Spare, j: nat, db: bool, base: Reg, list: seq<Reg>,
                                          pc: bool, s: State, o: State)
    returns (w: State)
    requires Eligible(source, temp) && Alike(Places(source, temp), {temp}, s, o)
    requires StateAmong(Landings(source, temp), s)
    requires temp != base && temp !in list
    requires PerformLoadMany(source, db, base, false, list, pc, s).Some?
    requires AtUnit(source, temp, j, o)
    requires UnitsAt(source, temp, j, [Twice(Do(Copy(temp, base))), Twice(Do(LoadMany(db, temp, false, list, pc)))])
    ensures Gets(source, temp, o, w)
    ensures Alike(Places(source, temp), {temp}, PerformLoadMany(source, db, base, false, list, pc, s).value, w)
    ensures var t := PerformLoadMany(source, db, base, false, list, pc, s).value;
      if pc then Facing(source, temp, t.pc, w.pc) else t.pc == s.pc + 1 && AtUnit(source, temp, j + 2, w)
  {
    hide Alike, Places, Output, Gets, LoadedMany, LoadFrom, GoToValue, Landings, StateAmong, Eligible, Facing;
    TwoUnits(source, temp, j, Twice(Do(Copy(temp, base))), Twice(Do(LoadMany(db, temp, false, list, pc))));
    CopyPerforms(Output(source, temp), temp, base, o);
    Runs(source, temp, j, Copy(temp, base), o, Next(Set(o, temp, o.regs[base])));
    var a := Set(o, temp, o.regs[base]).(pc := Pos(Units(source, temp), j + 1));
    FreeAlike(Places(source, temp), {temp}, s, o, temp, o.regs[base]);
    MovedPc(Places(source, temp), {temp}, s, Set(o, temp, o.regs[base]), a.pc);
    RegAlike(Places(source, temp), {temp}, s, o, base);
    var t;
    t, w := SpareUnit(source, temp, j + 1, db, s.regs[base].n, list, pc, s, a);
    GetsTrans(source, temp, o, a, w);
  }

  /** A block load that branches and writes back: the base is moved first, the load goes through the
      spare register holding the old base. */
  lemma {:induction false} LoadAwayRuns(source: seq<Line>, temp: Spare, j: nat, db: bool, base: Reg, list: seq<Reg>,
                                        s: State, o: State)
    returns (w: State)
    requires Eligible(source, temp) && Alike(Places(source, temp), {temp}, s, o)
    requires StateAmong(Landings(source, temp), s)
    requires temp != base && temp !in list
    requires PerformLoadMany(source, db, base, true, list, true, s).Some?
    requires AtUnit(source, temp, j, o) && UnitsAt(source, temp, j, ExpandLoadMany(db, base, true, list, true, temp))
    ensures Gets(source, temp, o, w)
    ensures Alike(Places(source, temp), {temp}, PerformLoadMany(source, db, base, true, list, true, s).value, w)
    ensures Facing(source, temp, PerformLoadMany(source, db, base, true, list, true, s).value.pc, w.pc)
  {
    hide Alike, Places, Output, Gets, LoadedMany, LoadFrom, GoToValue, Landings, RegistersAmong, MemoryAmong, Eligible,
      Facing,
      Compute, BlockEnd, BlockStart, Perform, BytesMoved;
    var b, n := s.regs[base].n, MovedBytes(list, true);
    var end := BlockEnd(db, b, BytesMoved(list, true));
    var address := BlockStart(db, b, BytesMoved(list, true));
    var back, load := Data(Towards(!db), false, temp, base, Imm(n)), LoadMany(db, temp, false, list, true);
    SplitUnits(source, temp, j, MoveBase(Towards(db), base, n, temp), [Twice(Do(back)), Twice(Do(load))]);
    TwoUnits(source, temp, j + 2, Twice(Do(back)), Twice(Do(load)));
    RegAlike(Places(source, temp), {temp}, s, o, base);
    var a := BaseRuns(source, temp, j, Towards(db), base, n, o);
    MovedBase(db, b, BytesMoved(list, true), o.flags.c, o.flags);
    MovedBase(db, b, BytesMoved(list, true), a.flags.c, a.flags);
    var s2 := Set(s, base, Num(end));
    SetBoth(Places(source, temp), temp, s, o, base, end, a);
    ImmediatePerforms(Output(source, temp), Towards(!db), temp, base, n, a);
    Runs(source, temp, j + 2, back, a, Next(Set(a, temp, Num(b))));
    var c := Set(a, temp, Num(b)).(pc := Pos(Units(source, temp), j + 3));
    FreeAlike(Places(source, temp), {temp}, s2, a, temp, Num(b));
    MovedPc(Places(source, temp), {temp}, s2, Set(a, temp, Num(b)), c.pc);
    NumberAmong(Landings(source, temp), s.regs, base, end);
    LoadedManySet(s.regs, s.mem, address, list, base, Num(end));
    var t;
    t, w := SpareUnit(source, temp, j + 3, db, b, list, true, s2, c);
    GetsTrans(source, temp, o, a, c);
    GetsTrans(source, temp, o, c, w);
  }

  lemma {:induction false} LoadManyRuns(source: seq<Line>, temp: Spare, j: nat, ins: Instruction, s: State, o: State)
    returns (w: State)
    requires Eligible(source, temp) && Alike(Places(source, temp), {temp}, s, o)
    requires StateAmong(Landings(source, temp), s)
    requires temp !in Tokens(ins) && Perform(source, ins, s).Some? && (ins.LoadMany? || ins.Pop?)
    requires AtUnit(source, temp, j, o) && UnitsAt(source, temp, j, ExpandOp(ins, temp, 0))
    ensures Gets(source, temp, o, w)
    ensures Followed(source, temp, ins, s, Perform(source, ins, s).value, j + |ExpandOp(ins, temp, 0)|, w)
  {
    hide Alike, Places, Output, Gets, PerformLoadMany, Tokens, Eligible, StateAmong, Landings, Settle, Facing, Made,
      ExpandKnown;
    ManyTokens(ins, temp);
    var db, base, wb := if ins.Pop? then false else ins.db, if ins.Pop? then SP else ins.base, ins.Pop? || ins.wb;
    if wb && ins.pc {
      w := LoadAwayRuns(source, temp, j, db, base, ins.list, s, o);
    } else if wb {
      w := LoadBackRuns(source, temp, j, db, base, ins.list, s, o);
    } else if base in ins.list {
      w := LoadCopiedRuns(source, temp, j, db, base, ins.list, ins.pc, s, o);
    } else {
      FirstUnit(source, temp, j, ExpandOp(ins, temp, 0));
      w := SameRuns(source, temp, j, None, ins, s, o);
    }
  }

  // ----- Calls -----

  lemma {:induction false} AddressPerforms(prog: seq<Line>, rd: Reg, l: nat, o: State)
    requires Find(prog, l).Some?
    ensures Perform(prog, AddressOf(rd, l), o) == Some(Next(Set(o, rd, Code(Settle(prog, Find(prog, l).value), false))))
  {
  }

  lemma {:induction false} ThumbPerforms(prog: seq<Line>, rd: Reg, o: State)
    requires o.regs[rd].Code?
    ensures Perform(prog, Short(Orr, false, rd, Imm(1)), o) == Some(Next(Set(o, rd, Code(o.regs[rd].at, true))))
  {
  }

  lemma {:induction false} FourUnits(source: seq<Line>, temp: Spare, j: nat, a: Unit, b: Unit, c: Unit, d: Unit)
    requires UnitsAt(source, temp, j, [a, b, c, d])
    ensures Units(source, temp)[j] == a && Units(source, temp)[j + 1] == b
    ensures Units(source, temp)[j + 2] == c && Units(source, temp)[j + 3] == d
  {
    hide Made;
    var units := Units(source, temp);
    var part := units[j..j + 4];
    assert units[j] == part[0] && units[j + 1] == part[1] && units[j + 2] == part[2] && units[j + 3] == part[3];
  }

  /** The label unit settles on what follows it. */
  lemma {:induction false} LabelSettles(source: seq<Line>, temp: Spare, j: nat, l: nat)
    requires j < |Units(source, temp)| && Units(source, temp)[j] == Once(Label(l))
    ensures var units, out := Units(source, temp), Output(source, temp);
      Settle(out, Pos(units, j)) == Settle(out, Pos(units, j + 1))
  {
    hide Made;
    UnitAt(Units(source, temp), j);
  }

  /** The return address is formed in two steps. */
  lemma {:induction false} LinkRuns(source: seq<Line>, temp: Spare, j: nat, l: nat, n: nat, o: State)
    returns (w: State)
    requires AtUnit(source, temp, j, o) && UnitsAt(source, temp, j, ExpandCall(l, n))
    requires Find(Output(source, temp), n) == Some(Pos(Units(source, temp), j + 3))
    ensures Gets(source, temp, o, w) && AtUnit(source, temp, j + 2, w)
    ensures w.flags == o.flags && w.mem == o.mem
    ensures w.regs == o.regs[LR := Code(Settle(Output(source, temp), Pos(Units(source, temp), j + 4)), true)]
  {
    hide Perform, Output, Gets, Settle, Find, Made;
    var units, out := Units(source, temp), Output(source, temp);
    FourUnits(source, temp, j, ExpandCall(l, n)[0], ExpandCall(l, n)[1], ExpandCall(l, n)[2], ExpandCall(l, n)[3]);
    LabelSettles(source, temp, j + 3, n);
    var back := Settle(out, Pos(units, j + 4));
    AddressPerforms(out, LR, n, o);
    Runs(source, temp, j, AddressOf(LR, n), o, Next(Set(o, LR, Code(back, false))));
    var a := Set(o, LR, Code(back, false)).(pc := Pos(units, j + 1));
    ThumbPerforms(out, LR, a);
    Runs(source, temp, j + 1, Short(Orr, false, LR, Imm(1)), a, Next(Set(a, LR, Code(back, true))));
    w := Set(a, LR, Code(back, true)).(pc := Pos(units, j + 2));
    GetsTrans(source, temp, o, a, w);
  }

  lemma {:induction false} CallRuns(source: seq<Line>, temp: Spare, j: nat, l: nat, n: nat, s: State, o: State)
    returns (w: State)
    requires Eligible(source, temp) && Alike(Places(source, temp), {temp}, s, o)
    requires Perform(source, Call(l), s).Some?
    requires AtUnit(source, temp, j, o) && UnitsAt(source, temp, j, ExpandCall(l, n))
    requires Find(Output(source, temp), n) == Some(Pos(Units(source, temp), j + 3))
    requires Returning(source, temp, Call(l), s, j + 4)
    ensures Gets(source, temp, o, w)
    ensures Followed(source, temp, Call(l), s, Perform(source, Call(l), s).value, j + 4, w)
  {
    hide Alike, Output, Settle, Find, Made, Eligible, Places, GoTo, Facing, Reaches, Roles;
    var units := Units(source, temp);
    FourUnits(source, temp, j, ExpandCall(l, n)[0], ExpandCall(l, n)[1], ExpandCall(l, n)[2], ExpandCall(l, n)[3]);
    var back := Code(Settle(source, s.pc + 1), true);
    InPlaces(source, temp, Settle(source, s.pc + 1));
    var a := LinkRuns(source, temp, j, l, n, o);
    SetAlike(Places(source, temp), {temp}, s, o, LR, back);
    DataOnly(Places(source, temp), {temp}, Set(s, LR, back), Set(o, LR, Moved(Places(source, temp), back)), a);
    GoToAlike(source, temp, l, Set(s, LR, back), a);
    w := GoTo(Output(source, temp), l, a).value;
    BranchJumps(source, temp, j + 2, l, a, GoTo(source, l, Set(s, LR, back)).value.pc, w);
    GetsTrans(source, temp, o, a, w);
  }

  lemma {:induction false} BranchJumps(source: seq<Line>, temp: Spare, j: nat, l: nat, o: State, k: nat, w: State)
    requires Eligible(source, temp)
    requires AtUnit(source, temp, j, o) && j < |Units(source, temp)| && Units(source, temp)[j].line == Do(Branch(l))
    requires GoTo(Output(source, temp), l, o) == Some(w) && Facing(source, temp, k, w.pc)
    ensures Gets(source, temp, o, w)
  {
    hide Made, Eligible, Reaches, Entries, GoTo;
    MadeGood(source, temp, |source|);
    UnitJumps(Units(source, temp), j, None, Branch(l), o, w);
  }

  // ----- Any instruction -----

  /** What an instruction becomes does what the instruction does, and goes on behind its own units. */
  lemma {:induction false} OpRuns(source: seq<Line>, temp: Spare, j: nat, ins: Instruction, n: nat, s: State, o: State)
    returns (w: State)
    requires Eligible(source, temp) && Alike(Places(source, temp), {temp}, s, o)
    requires StateAmong(Landings(source, temp), s)
    requires temp !in Tokens(ins) && Perform(source, ins, s).Some? && Replaceable(ins)
    requires AtUnit(source, temp, j, o) && UnitsAt(source, temp, j, ExpandOp(ins, temp, n))
    requires ins.Call? ==> Find(Output(source, temp), n) == Some(Pos(Units(source, temp), j + 3))
    requires Returning(source, temp, ins, s, j + |ExpandOp(ins, temp, n)|)
    ensures Gets(source, temp, o, w)
    ensures Followed(source, temp, ins, s, Perform(source, ins, s).value, j + |ExpandOp(ins, temp, n)|, w)
  {
    hide Alike, Output, Gets, Perform, Tokens, Eligible, StateAmong, Landings, Settle, Facing, Find, Made, Places,
      Replaceable,
      ExpandKnown, ExpandLoadMany, ExpandStoreMany, Followed;
    match ins
    case Call(l) => w := CallRuns(source, temp, j, l, n, s, o);
    case LoadMany(_, _, _, _, _) => w := LoadManyRuns(source, temp, j, ins, s, o);
    case Pop(_, _) => w := LoadManyRuns(source, temp, j, ins, s, o);
    case StoreMany(_, _, _, _) => w := StoreManyRuns(source, temp, j, ins, s, o);
    case Push(_) => w := StoreManyRuns(source, temp, j, ins, s, o);
    case Load(_, _, _, index) =>
      if index.Offset? {
        w := KnownRuns(source, temp, j, ins, s, o);
      } else {
        w := TransferRuns(source, temp, j, ins, s, o);
      }
    case Store(_, _, _, index) =>
      if index.Offset? {
        w := KnownRuns(source, temp, j, ins, s, o);
      } else {
        w := TransferRuns(source, temp, j, ins, s, o);
      }
    case _ => w := KnownRuns(source, temp, j, ins, s, o);
  }
}
