/** Three chains the register search finds and the replay rejects: a model that reads the register taken back,
    a fault that jumps to an end, and a fault that jumps to an odd address before another one. */
module RegisterReplayGaps {
  import opened Processor
  import opened RegisterSearch
  import opened RegisterReplay
  import opened RegisterBruteForce
  import opened RegisterReplayTheorem
  import opened RegisterAgreement
  import SearchSpec

  const ZEROS: seq<Byte> := [0, 0, 0, 0]
  const ALWAYS := RegisterModel(true, _ => 1, _ => true, _ => 1)
  const JUMP := RegisterModel(false, _ => 1, _ => true, _ => 2)

  /** One instruction, at address 0, copies the first register into the second; address 2 is an end, and
      exploitable when only the second register is set. */
  const READER := RegisterCampaign(
    Machine(0x2000_0000, 0,
      (s: State, code: seq<Byte>) =>
        if s.cpu.pc == 0 && |s.cpu.others| == 2 then
          Executed(s.cpu.(pc := 2, others := [s.cpu.others[0], s.cpu.others[0]]), [], false)
        else Undecodable,
      {2},
      (s: State, a: Word) => if s.cpu.others == [0, 1] then Exploitable else NotExploitable),
    Ignore([], []), [ALWAYS], [0], (s: State, code: seq<Byte>) => [0], w => w, _ => false)

  const START := State(Cpu(0, 0, [0, 0], 0), [])
  const SET := RegisterFault(0, 0, 0, 0, 0, 1)

  /** A fault before the first instruction whose run ends exploitable is found. */
  lemma {:induction false} FoundAtOnce(c: RegisterCampaign, s: State, code: seq<Byte>, budget: nat, f: RegisterFault)
    requires c.Valid() && KeepsEven(c.m) && |c.plan| > 0 && budget > 0 && Aligned(s) == s
    requires Clock(c.m, s, code).ticked && !Ignored(c.ignore, s.cpu) && f.reg in c.readBy(s, code)
    requires var blank := Blank(c, 0, s, f.reg, f.iteration);
      && f == Applied(c.Active(0), blank) && !Skipped(c, 0, s, [], blank)
      && f.iteration < c.Active(0).iterations(Blank(c, 0, s, f.reg, 0))
    requires ValidChain(c, [f]) && Judged(c.m, Run(With(c, [f]), Aligned(Faulted(c, s, f)), code, NO_END, budget))
    ensures [f] in Search(c, 0, s, code, budget, [])
  {
    hide Search, Clock, With, Skipped, Due, Run, Faulted, Applied, Blank;
    NothingTakenBack(c, [], s, code);
    DueIs(c, 0, s, [], f);
    AppliedIs(c, 0, s, f.reg, f.iteration);
    assert [] + [f] == [f];
    ByFound(c, 0, s, code, budget, [], f, [f]);
  }

  /** The fault is taken back before the search judges, but behind the judgement of the replay. */
  lemma {:induction false} ReplayMissesRevert()
    ensures READER.Valid() && KeepsEven(READER.m) && StopsAlike(READER.m) && ValidChain(READER, [SET])
    ensures NoCounterFault([SET])
    ensures [SET] in Search(READER, 0, START, ZEROS, 3, [])
    ensures !Replayed(READER, Aligned(START), ZEROS, [SET], 3)
  {
    ReaderFinds();
    ReaderRejects();
  }

  lemma {:induction false} ReaderFinds()
    ensures READER.Valid() && KeepsEven(READER.m)
    ensures [SET] in Search(READER, 0, START, ZEROS, 3, [])
  {
    hide Search, Clock, With, Skipped;
    ReaderTrace();
    ReaderSteps();
    ReaderStops();
    var y := State(Cpu(2, 0, [0, 1], 1), []);
    assert Run(With(READER, [SET]), Faulted(READER, START, SET), ZEROS, NO_END, 3) ==
      Outcome(y, StopEmulationCalled, 1);
    FoundAtOnce(READER, START, ZEROS, 3, SET);
  }

  lemma {:induction false} ReaderTrace()
    ensures READER.Valid() && Clock(READER.m, START, ZEROS).ticked && !Ignored(READER.ignore, START.cpu)
    ensures 0 in READER.readBy(START, ZEROS) && SET == Applied(ALWAYS, Blank(READER, 0, START, 0, 0))
    ensures !Skipped(READER, 0, START, [], Blank(READER, 0, START, 0, 0))
  {
  }

  lemma {:induction false} ReaderSteps()
    ensures ValidChain(READER, [SET])
    ensures var m, x, y := With(READER, [SET]), Faulted(READER, START, SET), State(Cpu(2, 0, [0, 1], 1), []);
      Clock(m, x, ZEROS) == Tick(y, Ok, true) && x.cpu.pc == 0
  {
    hide HooksOf, Reverting;
    ReaderHook();
    var x := Faulted(READER, START, SET);
    assert x.cpu == Cpu(0, 0, [1, 0], 0);
    assert READER.m.exec(x, ZEROS) == Executed(Cpu(2, 0, [1, 1], 0), [], false);
  }

  lemma {:induction false} ReaderHook()
    ensures ValidChain(READER, [SET]) && HooksOf(READER, [SET]) == [SET]
    ensures Reverting(READER.kept, Cpu(2, 0, [1, 1], 0), [SET], 0) == Cpu(2, 0, [0, 1], 0)
  {
    assert [SET][..0] == [] && HooksOf(READER, []) == [];
    assert [SET][1..] == [];
    assert [1, 1][0 := 0] == [0, 1];
  }

  lemma {:induction false} ReaderStops()
    ensures ValidChain(READER, [SET])
    ensures var m, y := With(READER, [SET]), State(Cpu(2, 0, [0, 1], 1), []);
      Clock(m, y, ZEROS) == Tick(y, StopEmulationCalled, false) && READER.m.evaluate(y, 2) == Exploitable
  {
    hide HooksOf, Reverting, ExecuteStep;
  }

  lemma {:induction false} InjectedAlone(c: RegisterCampaign, cpu: Cpu, f: RegisterFault)
    requires f.model < |c.library| && Refreshed(c, cpu, f) == f
    ensures ValidChain(c, [f])
    ensures Injected(c, cpu, [f], f.time) == (WriteRegister(c.kept, cpu, f.reg, f.manipulated), [f])
  {
    assert [f][1..] == [] && [f] + [] == [f];
  }

  lemma {:induction false} ReaderRejects()
    ensures ValidChain(READER, [SET]) && NoCounterFault([SET])
    ensures !Replayed(READER, Aligned(START), ZEROS, [SET], 3)
  {
    var x := Faulted(READER, START, SET);
    InjectedAlone(READER, START.cpu, SET);
    var t := ExecuteStep(READER.m, x, ZEROS).state;
    assert t.cpu == Cpu(2, 0, [1, 1], 1);
    assert Stops(READER.m, t) && READER.m.evaluate(t, 2) == NotExploitable;
  }

  /** One instruction, at address 0, jumps to address 4, where nothing can be decoded; address 2 is an end
      and always exploitable. */
  const JUMPER := RegisterCampaign(
    Machine(0x2000_0000, 0,
      (s: State, code: seq<Byte>) => if s.cpu.pc == 0 then Executed(s.cpu.(pc := 4), [], false) else Undecodable,
      {2},
      (s: State, a: Word) => Exploitable),
    Ignore([], []), [JUMP], [0], (s: State, code: seq<Byte>) => [PC], w => w, _ => false)

  const TO_END := RegisterFault(0, 0, 0, PC, 4, 2)

  /** A fault that jumps to an end address stops the search there; the replay has already tested. */
  lemma {:induction false} ReplayMissesJump()
    ensures JUMPER.Valid() && KeepsEven(JUMPER.m) && JudgesMemory(JUMPER.m) && ValidChain(JUMPER, [TO_END])
    ensures [TO_END] in Search(JUMPER, 0, START, ZEROS, 3, [])
    ensures !Replayed(JUMPER, Aligned(START), ZEROS, [TO_END], 3)
  {
    JumperFinds();
    JumperRejects();
  }

  lemma {:induction false} JumperFinds()
    ensures JUMPER.Valid() && KeepsEven(JUMPER.m) && JudgesMemory(JUMPER.m)
    ensures [TO_END] in Search(JUMPER, 0, START, ZEROS, 3, [])
  {
    hide Search, Clock, With, Skipped;
    JumperTrace();
    JumperStops();
    var x := Faulted(JUMPER, START, TO_END);
    assert Run(With(JUMPER, [TO_END]), x, ZEROS, NO_END, 3) == Outcome(x, StopEmulationCalled, 0);
    FoundAtOnce(JUMPER, START, ZEROS, 3, TO_END);
  }

  lemma {:induction false} JumperTrace()
    ensures JUMPER.Valid() && Clock(JUMPER.m, START, ZEROS).ticked && !Ignored(JUMPER.ignore, START.cpu)
    ensures PC in JUMPER.readBy(START, ZEROS) && TO_END == Applied(JUMP, Blank(JUMPER, 0, START, PC, 0))
    ensures !Skipped(JUMPER, 0, START, [], Blank(JUMPER, 0, START, PC, 0))
  {
  }

  lemma {:induction false} JumperStops()
    ensures ValidChain(JUMPER, [TO_END]) && Faulted(JUMPER, START, TO_END).cpu.pc == 2
    ensures var x := Faulted(JUMPER, START, TO_END);
      Clock(With(JUMPER, [TO_END]), x, ZEROS) == Tick(x, StopEmulationCalled, false)
  {
    hide HooksOf, Reverting, ExecuteStep;
  }

  lemma {:induction false} JumperRejects()
    ensures ValidChain(JUMPER, [TO_END])
    ensures !Replayed(JUMPER, Aligned(START), ZEROS, [TO_END], 3)
  {
    var x := Faulted(JUMPER, START, TO_END);
    InjectedAlone(JUMPER, START.cpu, TO_END);
    assert ExecuteStep(JUMPER.m, x, ZEROS).ret == Error;
  }

  // ---- An odd address before the last clock -----------------------------------------------------

  /** Whatever one injection finds at a clock that executes is found by the search. */
  lemma {:induction false} IntoSearch(c: RegisterCampaign, level: nat, e: State, code: seq<Byte>, budget: nat,
                                      chain: RegisterChain, i: nat, reg: nat, iteration: nat, found: RegisterChain)
    requires c.Valid() && KeepsEven(c.m) && level < |c.plan| && ValidChain(c, chain) && EvenCounter(e, chain)
    requires i < budget && Runs(With(c, chain), Aligned(e), code, i)
    requires var x := After(With(c, chain), Aligned(e), code, i);
      Clock(With(c, chain), x, code).ticked && !Ignored(c.ignore, x.cpu) && reg in c.readBy(x, code)
    requires var x := Stand(With(c, chain), e, code, i);
      && !Processed(c, x, chain, reg) && iteration < c.Active(level).iterations(Blank(c, level, x, reg, 0))
      && found in Trial(c, level, x, code, budget - i, chain, reg, iteration)
    ensures found in Search(c, level, e, code, budget, chain)
  {
    hide Trial, Trials, Processed, Entries, Clock, Runs, After, HooksOf, With, SortedOnce, Blank;
    var m, x := With(c, chain), Stand(With(c, chain), e, code, i);
    WithKeepsEven(c, e, chain);
    EntryOf(c, m, Aligned(e), code, budget, i);
    EntryIs(c, m, Aligned(e), code, budget, i);
    var regs := EntryAt(c, After(m, Aligned(e), code, i), code);
    IntoTrials(c, level, x, code, budget - i, chain, reg, c.Active(level).iterations(Blank(c, level, x, reg, 0)),
               iteration, found);
    IntoVisit(c, level, x, code, budget - i, chain, regs, reg, found);
    IntoVisits(c, level, e, code, budget, chain, SearchSpec.UpTo(|Trace(c, e, code, budget, chain)|), i, found);
  }

  const ODD := RegisterModel(false, _ => 1, _ => true, _ => 3)
  const LASTING := RegisterModel(false, _ => 1, _ => true, _ => 1)
  const EIGHT: seq<Byte> := [0, 0, 0, 0, 0, 0, 0, 0]

  /** Instructions at the addresses 0, 2 and 4 go on to the next one and nothing can be decoded at an odd
      address; address 6 is an end, and exploitable when the first register is set. */
  const STRAIGHT := RegisterCampaign(
    Machine(0x2000_0000, 0,
      (s: State, code: seq<Byte>) =>
        if s.cpu.pc == 0 then Executed(s.cpu.(pc := 2), [], false)
        else if s.cpu.pc == 2 then Executed(s.cpu.(pc := 4), [], false)
        else if s.cpu.pc == 4 then Executed(s.cpu.(pc := 6), [], false)
        else Undecodable,
      {6},
      (s: State, a: Word) => if s.cpu.others == [1, 0] then Exploitable else NotExploitable),
    Ignore([], []), [ODD, LASTING], [0, 1],
    (s: State, code: seq<Byte>) => if s.cpu.time == 0 then [PC] else [0], w => w, _ => false)

  const TO_ODD := RegisterFault(0, 0, 0, PC, 4, 3)
  const SET_LATER := RegisterFault(1, 1, 0, 0, 0, 1)

  /** Faults that last have no hooks. */
  lemma {:induction false} NoHooksLasting(c: RegisterCampaign, chain: RegisterChain)
    requires ValidChain(c, chain) && forall f | f in chain :: !c.library[f.model].transient
    ensures With(c, chain) == With(c, [])
    decreases |chain|
  {
    if chain != [] {
      NoHooksLasting(c, chain[..|chain| - 1]);
      assert chain[|chain| - 1] in chain;
      HooksLasting(c, chain);
    }
  }

  lemma {:induction false} HooksLasting(c: RegisterCampaign, chain: RegisterChain)
    requires ValidChain(c, chain) && forall f | f in chain :: !c.library[f.model].transient
    ensures HooksOf(c, chain) == []
    decreases |chain|
  {
    if chain != [] {
      HooksLasting(c, chain[..|chain| - 1]);
      assert chain[|chain| - 1] in chain;
    }
  }

  lemma {:induction false} StraightClocks(s: State)
    requires s.cpu.sp == 0 && s.ram == []
    ensures var m := With(STRAIGHT, []);
      && (s.cpu.pc in {0, 2, 4} ==>
          Clock(m, s, EIGHT) == Tick(s.(cpu := s.cpu.(pc := s.cpu.pc + 2, time := s.cpu.time + 1)), Ok, true))
      && (s.cpu.pc == 6 ==> Clock(m, s, EIGHT) == Tick(s, StopEmulationCalled, false))
  {
    hide With;
    NothingTakenBack(STRAIGHT, [], s, EIGHT);
  }

  function On(pc: Word, first: Word, time: nat): State {
    State(Cpu(pc, 0, [first, 0], time), [])
  }

  /** From address 2 at time 0: the run to the end, with the first register as it is. */
  lemma {:induction false} StraightRuns(first: Word)
    ensures var m := With(STRAIGHT, []);
      && Runs(m, On(2, first, 0), EIGHT, 1) && After(m, On(2, first, 0), EIGHT, 1) == On(4, first, 1)
      && Run(m, On(2, first, 0), EIGHT, NO_END, 3) == Outcome(On(6, first, 2), StopEmulationCalled, 2)
      && Run(m, On(4, first, 1), EIGHT, NO_END, 2) == Outcome(On(6, first, 2), StopEmulationCalled, 1)
  {
    hide With, Clock;
    var m := With(STRAIGHT, []);
    StraightClocks(On(2, first, 0));
    StraightClocks(On(4, first, 1));
    StraightClocks(On(6, first, 2));
    assert Run(m, On(6, first, 2), EIGHT, NO_END, 1) == Outcome(On(6, first, 2), StopEmulationCalled, 0);
    assert Runs(m, On(4, first, 1), EIGHT, 0);
  }

  lemma {:induction false} StraightFinds()
    ensures STRAIGHT.Valid() && KeepsEven(STRAIGHT.m)
    ensures [TO_ODD, SET_LATER] in Search(STRAIGHT, 0, START, EIGHT, 3, [])
  {
    hide Search, Clock, With, Skipped, Run, Processed, EvenCounter, Trial;
    StraightSecond();
    StraightFirst();
    StraightClocks(START);
    assert EvenCounter(START, []) by { StraightEven(); }
    assert !Processed(STRAIGHT, START, [], PC) by { StraightEven(); }
    assert Stand(With(STRAIGHT, []), START, EIGHT, 0) == START;
    IntoSearch(STRAIGHT, 0, START, EIGHT, 3, [], 0, PC, 0, [TO_ODD, SET_LATER]);
  }

  lemma {:induction false} StraightEven()
    ensures EvenCounter(START, []) && !Processed(STRAIGHT, START, [], PC)
    ensures EvenCounter(On(3, 0, 0), [TO_ODD])
    ensures ValidChain(STRAIGHT, [TO_ODD]) && !Processed(STRAIGHT, On(4, 0, 1), [TO_ODD], 0)
  {
    assert TO_ODD in [TO_ODD];
  }

  /** The first fault alone is not exploitable, so that the search goes on behind it. */
  lemma {:induction false} StraightFirst()
    requires [TO_ODD, SET_LATER] in Search(STRAIGHT, 1, On(3, 0, 0), EIGHT, 3, [TO_ODD])
    ensures [TO_ODD, SET_LATER] in Trial(STRAIGHT, 0, START, EIGHT, 3, [], PC, 0)
  {
    hide Search, Clock, With, Run;
    StraightRuns(0);
    NoHooksLasting(STRAIGHT, [TO_ODD]);
    assert [] + [TO_ODD] == [TO_ODD];
    assert Faulted(STRAIGHT, START, TO_ODD) == On(3, 0, 0);
    assert Applied(STRAIGHT.Active(0), Blank(STRAIGHT, 0, START, PC, 0)) == TO_ODD;
  }

  lemma {:induction false} StraightSecond()
    ensures [TO_ODD, SET_LATER] in Search(STRAIGHT, 1, On(3, 0, 0), EIGHT, 3, [TO_ODD])
  {
    hide Search, Clock, With, Skipped, Run, Processed, EvenCounter, Trial;
    StraightEven();
    StraightRuns(0);
    NoHooksLasting(STRAIGHT, [TO_ODD]);
    StraightClocks(On(4, 0, 1));
    StraightTrial();
    IntoSearch(STRAIGHT, 1, On(3, 0, 0), EIGHT, 3, [TO_ODD], 1, 0, 0, [TO_ODD, SET_LATER]);
  }

  lemma {:induction false} StraightTrial()
    ensures ValidChain(STRAIGHT, [TO_ODD])
    ensures [TO_ODD, SET_LATER] in Trial(STRAIGHT, 1, On(4, 0, 1), EIGHT, 2, [TO_ODD], 0, 0)
  {
    hide Search, Clock, With, Run;
    StraightRuns(1);
    assert [TO_ODD] + [SET_LATER] == [TO_ODD, SET_LATER];
    NoHooksLasting(STRAIGHT, [TO_ODD, SET_LATER]);
    assert [0, 0][0 := 1] == [1, 0];
    assert Faulted(STRAIGHT, On(4, 0, 1), SET_LATER) == On(4, 1, 1);
    assert Applied(STRAIGHT.Active(1), Blank(STRAIGHT, 1, On(4, 0, 1), 0, 0)) == SET_LATER;
  }

  lemma {:induction false} StraightInjects()
    ensures ValidChain(STRAIGHT, [TO_ODD, SET_LATER])
    ensures Injected(STRAIGHT, START.cpu, [TO_ODD, SET_LATER], 0) == (On(3, 0, 0).cpu, [TO_ODD, SET_LATER])
  {
    hide Injected, InstructionSize;
    assert [TO_ODD, SET_LATER][1..] == [SET_LATER] && [TO_ODD] + [SET_LATER] == [TO_ODD, SET_LATER];
    InjectedNone(STRAIGHT, On(3, 0, 0).cpu, [SET_LATER], 0);
    assert Refreshed(STRAIGHT, START.cpu, TO_ODD) == TO_ODD;
    assert WriteRegister(STRAIGHT.kept, START.cpu, PC, 3) == On(3, 0, 0).cpu;
    InjectedFront(STRAIGHT, START.cpu, [TO_ODD, SET_LATER], 0);
  }

  lemma {:induction false} InjectedFront(c: RegisterCampaign, cpu: Cpu, faults: RegisterChain, time: nat)
    requires ValidChain(c, faults) && faults != [] && faults[0].time == time
    ensures ValidChain(c, faults[1..])
    ensures var f := Refreshed(c, cpu, faults[0]);
      var rest := Injected(c, WriteRegister(c.kept, cpu, f.reg, f.manipulated), faults[1..], time);
      Injected(c, cpu, faults, time) == (rest.0, [f] + rest.1)
  {
  }

  lemma {:induction false} StraightRejects()
    ensures ValidChain(STRAIGHT, [TO_ODD, SET_LATER])
    ensures !Replayed(STRAIGHT, Aligned(START), EIGHT, [TO_ODD, SET_LATER], 3)
  {
    hide Injected, Refreshed, WriteRegister;
    StraightInjects();
    UndoneNone(STRAIGHT, START.cpu, [TO_ODD, SET_LATER], 0);
    assert [TO_ODD, SET_LATER][0..] == [TO_ODD, SET_LATER];
    assert ExecuteStep(STRAIGHT.m, On(3, 0, 0), EIGHT).ret == Error;
  }

  /** Between its levels the search clears the low bit of the program counter, the replay executes at the odd
      address the first fault wrote. */
  lemma {:induction false} ReplayMissesOdd()
    ensures STRAIGHT.Valid() && KeepsEven(STRAIGHT.m) && !EvenWrites([TO_ODD, SET_LATER])
    ensures [TO_ODD, SET_LATER] in Search(STRAIGHT, 0, START, EIGHT, 3, [])
    ensures ValidChain(STRAIGHT, [TO_ODD, SET_LATER])
    ensures !Replayed(STRAIGHT, Aligned(START), EIGHT, [TO_ODD, SET_LATER], 3)
  {
    StraightFinds();
    StraightRejects();
    assert TO_ODD in [TO_ODD, SET_LATER];
  }
}
