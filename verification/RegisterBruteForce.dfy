/** The register search of any order is brute force over all executed instructions, the registers each of them
    reads, and all iterations, for any trace. */
module RegisterBruteForce {
  import opened Processor
  import opened RegisterSearch
  import BruteForce
  import RegisterSimulator
  import SearchSpec
  import opened Threads

  // ---- Members of the result lists --------------------------------------------------------------

  lemma {:induction false} FromTrials(c: RegisterCampaign, level: nat, s: State, code: seq<Byte>, remaining: nat,
                                      chain: RegisterChain, reg: nat, upTo: nat, found: RegisterChain)
    returns (i: nat)
    requires c.Valid() && level < |c.plan| && ValidChain(c, chain)
    requires found in Trials(c, level, s, code, remaining, chain, reg, upTo)
    ensures i < upTo && found in Trial(c, level, s, code, remaining, chain, reg, i)
    decreases upTo
  {
    hide Trial;
    if found in Trial(c, level, s, code, remaining, chain, reg, upTo - 1) {
      i := upTo - 1;
    } else {
      i := FromTrials(c, level, s, code, remaining, chain, reg, upTo - 1, found);
    }
  }

  lemma {:induction false} IntoTrials(c: RegisterCampaign, level: nat, s: State, code: seq<Byte>, remaining: nat,
                                      chain: RegisterChain, reg: nat, upTo: nat, i: nat, found: RegisterChain)
    requires c.Valid() && level < |c.plan| && ValidChain(c, chain)
    requires i < upTo && found in Trial(c, level, s, code, remaining, chain, reg, i)
    ensures found in Trials(c, level, s, code, remaining, chain, reg, upTo)
    decreases upTo
  {
    hide Trial;
    if i < upTo - 1 {
      IntoTrials(c, level, s, code, remaining, chain, reg, upTo - 1, i, found);
    }
  }

  lemma {:induction false} FromVisit(c: RegisterCampaign, level: nat, s: State, code: seq<Byte>, remaining: nat,
                                     chain: RegisterChain, regs: seq<nat>, found: RegisterChain)
    returns (reg: nat)
    requires c.Valid() && level < |c.plan| && ValidChain(c, chain)
    requires found in Visit(c, level, s, code, remaining, chain, regs)
    ensures reg in regs && found in Fault(c, level, s, code, remaining, chain, reg)
    decreases |regs|
  {
    hide Fault;
    var n := |regs| - 1;
    if found in Fault(c, level, s, code, remaining, chain, regs[n]) {
      reg := regs[n];
    } else {
      reg := FromVisit(c, level, s, code, remaining, chain, regs[..n], found);
    }
  }

  lemma {:induction false} IntoVisit(c: RegisterCampaign, level: nat, s: State, code: seq<Byte>, remaining: nat,
                                     chain: RegisterChain, regs: seq<nat>, reg: nat, found: RegisterChain)
    requires c.Valid() && level < |c.plan| && ValidChain(c, chain)
    requires reg in regs && found in Fault(c, level, s, code, remaining, chain, reg)
    ensures found in Visit(c, level, s, code, remaining, chain, regs)
    decreases |regs|
  {
    hide Fault;
    var n := |regs| - 1;
    assert regs == regs[..n] + [regs[n]];
    if reg != regs[n] {
      IntoVisit(c, level, s, code, remaining, chain, regs[..n], reg, found);
    }
  }

  lemma {:induction false} FromVisits(c: RegisterCampaign, level: nat, s: State, code: seq<Byte>, budget: nat,
                                      chain: RegisterChain, tickets: seq<nat>, found: RegisterChain)
    returns (i: nat)
    requires c.Valid() && level < |c.plan| && ValidChain(c, chain)
    requires forall i | 0 <= i < |tickets| :: tickets[i] < |Trace(c, s, code, budget, chain)|
    requires found in Visits(c, level, s, code, budget, chain, tickets)
    ensures i < |Trace(c, s, code, budget, chain)| && found in VisitAt(c, level, s, code, budget, chain, i)
    decreases |tickets|
  {
    hide VisitAt, Trace, HooksOf;
    var n := |tickets| - 1;
    if found in VisitAt(c, level, s, code, budget, chain, tickets[n]) {
      i := tickets[n];
    } else {
      i := FromVisits(c, level, s, code, budget, chain, tickets[..n], found);
    }
  }

  lemma {:induction false} IntoVisits(c: RegisterCampaign, level: nat, s: State, code: seq<Byte>, budget: nat,
                                      chain: RegisterChain, tickets: seq<nat>, i: nat, found: RegisterChain)
    requires c.Valid() && level < |c.plan| && ValidChain(c, chain) && i < |tickets|
    requires forall i | 0 <= i < |tickets| :: tickets[i] < |Trace(c, s, code, budget, chain)|
    requires found in VisitAt(c, level, s, code, budget, chain, tickets[i])
    ensures found in Visits(c, level, s, code, budget, chain, tickets)
    decreases |tickets|
  {
    hide VisitAt, Trace, HooksOf;
    var n := |tickets| - 1;
    if i < n {
      IntoVisits(c, level, s, code, budget, chain, tickets[..n], i, found);
    }
  }

  /** What a written register reads as: the stack pointer is kept aligned, the program counter reads four ahead, and
      the status register keeps what it keeps.  The others are left alone. */
  lemma {:induction false} WrittenReads(kept: Word -> Word, cpu: Cpu, r: nat, v: Word, other: nat)
    requires |cpu.others| == 17 && r < 17 && other < 17 && other != r
    ensures var x := WriteRegister(kept, cpu, r, v);
      && ReadRegister(x, other) == ReadRegister(cpu, other)
      && ReadRegister(x, r) ==
           if r == 15 then (v + 4) % WORD_LIMIT else if r == 13 then v / 4 * 4 else if r == 16 then kept(v) else v
  {
  }

  // ---- What the hooks of a chain do -------------------------------------------------------------

  /** A register that no fault of this time hit is left alone. */
  lemma {:induction false} RevertingKeeps(kept: Word -> Word, cpu: Cpu, hooks: RegisterChain, time: nat, r: nat)
    requires forall f | f in hooks && f.time == time :: f.reg != r
    ensures var x := Reverting(kept, cpu, hooks, time);
      ReadRegister(x, r) == ReadRegister(cpu, r) && |x.others| == |cpu.others| && x.time == cpu.time
    decreases |hooks|
  {
    if hooks != [] {
      var h := hooks[0];
      RevertingKeeps(kept, if h.time == time then WriteRegister(kept, cpu, h.reg, h.original) else cpu, hooks[1..],
                     time, r);
    }
  }

  /** One that some fault hit holds its original value. */
  lemma {:induction false} RevertingRestores(kept: Word -> Word, cpu: Cpu, hooks: RegisterChain, time: nat,
                                             f: RegisterFault)
    requires f in hooks && f.time == time && f.reg < |cpu.others| && f.reg !in [SP, PC, STATUS]
    requires forall g | g in hooks && g.time == time && g.reg == f.reg :: g == f
    ensures ReadRegister(Reverting(kept, cpu, hooks, time), f.reg) == f.original
    decreases |hooks|
  {
    var h := hooks[0];
    var next := if h.time == time then WriteRegister(kept, cpu, h.reg, h.original) else cpu;
    if f in hooks[1..] {
      RevertingRestores(kept, next, hooks[1..], time, f);
    } else {
      assert h == f;
      RevertingKeeps(kept, next, hooks[1..], time, f.reg);
    }
  }

  lemma {:induction false} HooksAre(c: RegisterCampaign, chain: RegisterChain)
    requires ValidChain(c, chain)
    ensures forall f :: f in HooksOf(c, chain) <==> f in chain && c.library[f.model].transient
    decreases |chain|
  {
    if chain != [] {
      HooksAre(c, chain[..|chain| - 1]);
      assert chain == chain[..|chain| - 1] + [chain[|chain| - 1]];
    }
  }

  /** A clock with hooks is the clock without them, apart from the registers put back behind it. */
  lemma {:induction false} HookedClock(c: RegisterCampaign, chain: RegisterChain, s: State, code: seq<Byte>)
    requires ValidChain(c, chain)
    ensures var t := Clock(c.m, s, code);
      Clock(With(c, chain), s, code) ==
        if t.ticked
        then t.(state := t.state.(cpu := Reverting(c.kept, c.m.exec(s, code).cpu, HooksOf(c, chain), s.cpu.time)
                                        .(time := t.state.cpu.time)))
        else t
  {
    hide StoredAll, HooksOf, Reverting;
    match c.m.exec(s, code)
    case Undecodable =>
    case Executed(_, stores, _) => RegisterSimulator.SameStores(c.m, With(c, chain), s.ram, stores);
  }

  /** Behind the faulted instruction a transient fault is taken back, if the register was hit once at this time;
      registers not hit at this time keep what the instruction left in them. */
  lemma {:induction false} TakenBack(c: RegisterCampaign, chain: RegisterChain, s: State, code: seq<Byte>,
                                     f: RegisterFault, r: nat)
    requires ValidChain(c, chain) && Clock(c.m, s, code).ticked
    requires f in chain && c.library[f.model].transient && f.time == s.cpu.time && f.reg !in [SP, PC, STATUS]
    requires f.reg < |Clock(c.m, s, code).state.cpu.others|
    requires forall g | g in chain && g.time == s.cpu.time && g.reg == f.reg :: g == f
    requires forall g | g in chain && g.time == s.cpu.time && c.library[g.model].transient :: g.reg != r
    ensures var t := Clock(With(c, chain), s, code);
      && t.ticked && t.ret == Clock(c.m, s, code).ret && t.state.ram == Clock(c.m, s, code).state.ram
      && ReadRegister(t.state.cpu, f.reg) == f.original
      && ReadRegister(t.state.cpu, r) == ReadRegister(Clock(c.m, s, code).state.cpu, r)
  {
    hide StoredAll, HooksOf, Reverting, With, Fetchable;
    HookedClock(c, chain, s, code);
    HooksAre(c, chain);
    var cpu := c.m.exec(s, code).cpu;
    RevertingRestores(c.kept, cpu, HooksOf(c, chain), s.cpu.time, f);
    RevertingKeeps(c.kept, cpu, HooksOf(c, chain), s.cpu.time, r);
  }

  lemma {:induction false} RevertingNothing(kept: Word -> Word, cpu: Cpu, hooks: RegisterChain, time: nat)
    requires forall f | f in hooks :: f.time != time
    ensures Reverting(kept, cpu, hooks, time) == cpu
    decreases |hooks|
  {
    if hooks != [] {
      RevertingNothing(kept, cpu, hooks[1..], time);
    }
  }

  /** At all other clocks the hooks do nothing. */
  lemma {:induction false} NothingTakenBack(c: RegisterCampaign, chain: RegisterChain, s: State, code: seq<Byte>)
    requires ValidChain(c, chain)
    requires forall g | g in chain && c.library[g.model].transient :: g.time != s.cpu.time
    ensures Clock(With(c, chain), s, code) == Clock(c.m, s, code)
  {
    hide StoredAll, HooksOf, Reverting, With, Fetchable;
    HookedClock(c, chain, s, code);
    HooksAre(c, chain);
    if Clock(c.m, s, code).ticked {
      RevertingNothing(c.kept, c.m.exec(s, code).cpu, HooksOf(c, chain), s.cpu.time);
    }
  }

  // ---- Brute force ------------------------------------------------------------------------------

  /** `f` is what one iteration of the level's model makes of its register in `s`: the model accepts it, the
      register takes the new value, and the chain it completes is not redundant. */
  predicate Due(c: RegisterCampaign, level: nat, s: State, chain: RegisterChain, f: RegisterFault)
    requires c.Valid() && level < |c.plan|
  {
    && (var model, blank := c.library[c.plan[level]],
                            RegisterFault(c.plan[level], s.cpu.time, f.iteration, f.reg, ReadRegister(s.cpu, f.reg), 0);
       && f.iteration < model.iterations(blank.(iteration := 0)) && model.isApplicable(blank)
       && f == blank.(manipulated := model.inject(blank)) && f.manipulated != f.original)
    && ReadRegister(WriteRegister(c.kept, s.cpu, f.reg, f.manipulated), f.reg) != f.original
    && !c.redundant(chain + [f])
  }

  /** The run with the hooks of the chain gets to the time of the fault within the budget. */
  predicate Reached(c: RegisterCampaign, s: State, code: seq<Byte>, budget: nat, chain: RegisterChain, f: RegisterFault)
    requires ValidChain(c, chain)
  {
    s.cpu.time <= f.time < s.cpu.time + budget && Runs(With(c, chain), Aligned(s), code, f.time - s.cpu.time)
  }

  /** The state it strikes in; before the first clock emulation has not started. */
  function Struck(c: RegisterCampaign, s: State, code: seq<Byte>, budget: nat, chain: RegisterChain,
                  f: RegisterFault): State
    requires ValidChain(c, chain) && Reached(c, s, code, budget, chain, f)
  {
    if f.time == s.cpu.time then s else After(With(c, chain), Aligned(s), code, f.time - s.cpu.time)
  }

  /** The instruction there executes outside the ignored ranges and reads the register, the fault is due, and no
      fault of the chain hit the register at this time or left the value it holds. */
  predicate Strikes(c: RegisterCampaign, level: nat, s: State, code: seq<Byte>, budget: nat, chain: RegisterChain,
                    f: RegisterFault)
    requires c.Valid() && level < |c.plan| && ValidChain(c, chain) && Reached(c, s, code, budget, chain, f)
  {
    && (var x := After(With(c, chain), Aligned(s), code, f.time - s.cpu.time);
       && Clock(With(c, chain), x, code).ticked && BruteForce.Considered(c.ignore, x.cpu.pc, f.time)
       && f.reg in c.readBy(x, code))
    && Due(c, level, Struck(c, s, code, budget, chain, f), chain, f)
    && forall g | g in chain && g.reg == f.reg ::
         g.time != f.time && (g.manipulated == f.original ==> c.library[g.model].transient)
  }

  /** Fault by fault: the run with the hooks so far up to its time, the register written, and the run from there
      with its own hook as well.  Behind the last fault the run ends exploitable within the budget, and behind no
      earlier one. */
  predicate BruteChain(c: RegisterCampaign, level: nat, s: State, code: seq<Byte>, budget: nat, chain: RegisterChain,
                       added: RegisterChain)
    requires c.Valid() && ValidChain(c, chain)
    decreases |added|
  {
    && added != [] && level < |c.plan| && Reached(c, s, code, budget, chain, added[0])
    && Strikes(c, level, s, code, budget, chain, added[0])
    && var f := added[0];
       var y := Faulted(c, Struck(c, s, code, budget, chain, f), f);
       var left := budget - (f.time - s.cpu.time);
       if BruteForce.EndsExploitable(c.m, Run(With(c, chain + [f]), Aligned(y), code, NO_END, left)) then |added| == 1
       else BruteChain(c, level + 1, y, code, left, chain + [f], added[1..])
  }

  /** Behind the fault the run is exploitable and the chain complete, or the next level finds it. */
  ghost predicate Leads(c: RegisterCampaign, level: nat, y: State, code: seq<Byte>, left: nat, chain: RegisterChain,
                        f: RegisterFault, found: RegisterChain)
    requires c.Valid() && level < |c.plan| && ValidChain(c, chain + [f])
  {
    if Judged(c.m, Emulated(With(c, chain + [f]), y, code, NO_END, left)) then found == chain + [f]
    else level + 1 < |c.plan| && found in Search(c, level + 1, y, code, left, chain + [f])
  }

  lemma {:induction false} TrialLeads(c: RegisterCampaign, level: nat, x: State, code: seq<Byte>, remaining: nat,
                                      chain: RegisterChain, f: RegisterFault, found: RegisterChain)
    requires c.Valid() && level < |c.plan| && ValidChain(c, chain) && remaining > 0
    requires f == Applied(c.Active(level), Blank(c, level, x, f.reg, f.iteration))
    ensures found in Trial(c, level, x, code, remaining, chain, f.reg, f.iteration) <==>
      !Skipped(c, level, x, chain, Blank(c, level, x, f.reg, f.iteration)) &&
      Leads(c, level, Faulted(c, x, f), code, remaining, chain, f, found)
  {
    hide Search, Skipped, Run, With, Faulted;
  }

  lemma {:induction false} DueIs(c: RegisterCampaign, level: nat, x: State, chain: RegisterChain, f: RegisterFault)
    requires c.Valid() && level < |c.plan|
    ensures var blank := Blank(c, level, x, f.reg, f.iteration);
      Due(c, level, x, chain, f) <==>
        && f == Applied(c.Active(level), blank) && !Skipped(c, level, x, chain, blank)
        && f.iteration < c.Active(level).iterations(Blank(c, level, x, f.reg, 0))
  {
    hide ReadRegister, WriteRegister;
  }

  lemma {:induction false} UnprocessedIs(c: RegisterCampaign, level: nat, x: State, chain: RegisterChain,
                                         f: RegisterFault)
    requires ValidChain(c, chain) && f.time == x.cpu.time && f.original == ReadRegister(x.cpu, f.reg)
    ensures !Processed(c, x, chain, f.reg) <==>
      forall g | g in chain && g.reg == f.reg ::
        g.time != f.time && (g.manipulated == f.original ==> c.library[g.model].transient)
  {
    hide ReadRegister;
  }

  /** `f` is the fault by which the level comes to `found`. */
  ghost predicate By(c: RegisterCampaign, level: nat, s: State, code: seq<Byte>, budget: nat, chain: RegisterChain,
                     f: RegisterFault, found: RegisterChain)
    requires c.Valid() && level < |c.plan| && ValidChain(c, chain)
  {
    && Reached(c, s, code, budget, chain, f) && Strikes(c, level, s, code, budget, chain, f)
    && Leads(c, level, Faulted(c, Struck(c, s, code, budget, chain, f), f), code, budget - (f.time - s.cpu.time), chain,
             f, found)
  }

  lemma {:induction false} FoundBy(c: RegisterCampaign, level: nat, s: State, code: seq<Byte>, budget: nat,
                                   chain: RegisterChain, found: RegisterChain)
      returns (f: RegisterFault)
    requires c.Valid() && level < |c.plan| && ValidChain(c, chain)
    requires found in Search(c, level, s, code, budget, chain)
    ensures By(c, level, s, code, budget, chain, f, found)
  {
    hide Skipped, Entries, Run, Clock, Runs, After, With, SortedOnce, Blank, Applied, Due, Leads, Trial, Trials, Visit,
      Faulted, Ignored, BruteForce.Considered;
    var k := FromVisits(c, level, s, code, budget, chain, SearchSpec.UpTo(|Trace(c, s, code, budget, chain)|), found);
    EntryIs(c, With(c, chain), Aligned(s), code, budget, k);
    var x := Stand(With(c, chain), s, code, k);
    BruteForce.ConsideredIs(c.ignore, After(With(c, chain), Aligned(s), code, k).cpu);
    var reg := FromVisit(c, level, x, code, budget - k, chain, Trace(c, s, code, budget, chain)[k], found);
    var n := c.Active(level).iterations(Blank(c, level, x, reg, 0));
    var iteration := FromTrials(c, level, x, code, budget - k, chain, reg, n, found);
    f := Applied(c.Active(level), Blank(c, level, x, reg, iteration));
    AppliedIs(c, level, x, reg, iteration);
    DueIs(c, level, x, chain, f);
    UnprocessedIs(c, level, x, chain, f);
    TrialLeads(c, level, x, code, budget - k, chain, f, found);
  }

  lemma {:induction false} AppliedIs(c: RegisterCampaign, level: nat, x: State, reg: nat, iteration: nat)
    requires c.Valid() && level < |c.plan|
    ensures var f := Applied(c.Active(level), Blank(c, level, x, reg, iteration));
      && f.reg == reg && f.iteration == iteration && f.time == x.cpu.time && f.original == ReadRegister(x.cpu, reg)
      && f.model == c.plan[level]
  {
  }

  lemma {:induction false} ByFound(c: RegisterCampaign, level: nat, s: State, code: seq<Byte>, budget: nat,
                                   chain: RegisterChain, f: RegisterFault, found: RegisterChain)
    requires c.Valid() && KeepsEven(c.m) && level < |c.plan| && ValidChain(c, chain) && EvenCounter(Aligned(s), chain)
    requires By(c, level, s, code, budget, chain, f, found)
    ensures found in Search(c, level, s, code, budget, chain)
  {
    hide Skipped, Entries, Run, Clock, Runs, After, With, SortedOnce, Blank, Applied, Due, Leads, Trial, Trials, Visit,
      Faulted, Ignored, BruteForce.Considered;
    var m, k := With(c, chain), f.time - s.cpu.time;
    WithKeepsEven(c, Aligned(s), chain);
    EntryOf(c, m, Aligned(s), code, budget, k);
    EntryIs(c, m, Aligned(s), code, budget, k);
    var x := Stand(m, s, code, k);
    BruteForce.ConsideredIs(c.ignore, After(m, Aligned(s), code, k).cpu);
    DueIs(c, level, x, chain, f);
    AppliedIs(c, level, x, f.reg, f.iteration);
    UnprocessedIs(c, level, x, chain, f);
    TrialLeads(c, level, x, code, budget - k, chain, f, found);
    var n := c.Active(level).iterations(Blank(c, level, x, f.reg, 0));
    IntoTrials(c, level, x, code, budget - k, chain, f.reg, n, f.iteration, found);
    IntoVisit(c, level, x, code, budget - k, chain, Trace(c, s, code, budget, chain)[k], f.reg, found);
    IntoVisits(c, level, s, code, budget, chain, SearchSpec.UpTo(|Trace(c, s, code, budget, chain)|), k, found);
  }

  // ---- Any order --------------------------------------------------------------------------------

  lemma {:induction false} StrikesValid(c: RegisterCampaign, level: nat, s: State, code: seq<Byte>, budget: nat,
                                       chain: RegisterChain, f: RegisterFault)
    requires c.Valid() && level < |c.plan| && ValidChain(c, chain)
    requires Reached(c, s, code, budget, chain, f) && Strikes(c, level, s, code, budget, chain, f)
    ensures ValidChain(c, chain + [f]) && s.cpu.time <= f.time < s.cpu.time + budget
  {
    hide Struck, With, Clock, Ignored, ReadRegister, WriteRegister;
  }

  lemma {:induction false} FoundExtends(c: RegisterCampaign, level: nat, s: State, code: seq<Byte>, budget: nat,
                                        chain: RegisterChain, found: RegisterChain)
    requires c.Valid() && level < |c.plan| && ValidChain(c, chain)
    requires found in Search(c, level, s, code, budget, chain)
    ensures chain < found
    decreases |c.plan| - level
  {
    hide Search, Strikes, Reached, Struck, Judged, Run, With, Faulted;
    var f := FoundBy(c, level, s, code, budget, chain, found);
    if found != chain + [f] {
      var y := Faulted(c, Struck(c, s, code, budget, chain, f), f);
      StrikesValid(c, level, s, code, budget, chain, f);
      FoundExtends(c, level + 1, y, code, budget - (f.time - s.cpu.time), chain + [f], found);
    }
  }

  lemma {:induction false} ByFirst(c: RegisterCampaign, level: nat, s: State, code: seq<Byte>, budget: nat,
                                   chain: RegisterChain, added: RegisterChain, f: RegisterFault)
    requires c.Valid() && level < |c.plan| && ValidChain(c, chain)
    requires By(c, level, s, code, budget, chain, f, chain + added)
    ensures added != [] && added[0] == f
  {
    hide Search, Strikes, Reached, Struck, Judged, Run, With, Faulted;
    if chain + added != chain + [f] {
      var y := Faulted(c, Struck(c, s, code, budget, chain, f), f);
      StrikesValid(c, level, s, code, budget, chain, f);
      FoundExtends(c, level + 1, y, code, budget - (f.time - s.cpu.time), chain + [f], chain + added);
    }
    assert (chain + [f])[|chain|] == (chain + added)[|chain|];
  }

  /** Striking keeps the counter even for the next level. */
  lemma {:induction false} StrikesEven(c: RegisterCampaign, level: nat, s: State, code: seq<Byte>, budget: nat,
                                       chain: RegisterChain, f: RegisterFault)
    requires c.Valid() && KeepsEven(c.m) && level < |c.plan| && ValidChain(c, chain) && EvenCounter(s, chain)
    requires Reached(c, s, code, budget, chain, f) && Strikes(c, level, s, code, budget, chain, f)
    ensures ValidChain(c, chain + [f])
    ensures EvenCounter(Faulted(c, Struck(c, s, code, budget, chain, f), f), chain + [f])
  {
    hide Skipped, Run, Clock, Runs, After, With, Due, Faulted, Ignored, EvenCounter, Blank, Applied;
    var x := Struck(c, s, code, budget, chain, f);
    StandEven(c, s, code, chain, f.time - s.cpu.time);
    DueIs(c, level, x, chain, f);
    AppliedIs(c, level, x, f.reg, f.iteration);
    UnprocessedIs(c, level, x, chain, f);
    FaultedEven(c, level, x, chain, f.reg, f.iteration);
  }

  /** What the level does behind the first fault. */
  lemma {:induction false} LeadsIs(c: RegisterCampaign, level: nat, y: State, code: seq<Byte>, left: nat,
                                   chain: RegisterChain, added: RegisterChain)
    requires c.Valid() && level < |c.plan| && added != [] && ValidChain(c, chain + [added[0]])
    ensures var f := added[0];
      Leads(c, level, y, code, left, chain, f, chain + added) <==>
        if BruteForce.EndsExploitable(c.m, Run(With(c, chain + [f]), Aligned(y), code, NO_END, left)) then |added| == 1
        else level + 1 < |c.plan| && chain + [f] + added[1..] in Search(c, level + 1, y, code, left, chain + [f])
  {
    hide Search, Run, With;
    assert chain + added == chain + [added[0]] + added[1..];
    assert |added| == 1 <==> chain + added == chain + [added[0]];
  }

  /** A level finds exactly what brute force finds, whatever the trace.  An odd program counter matters only to
      the levels behind: a fault in it would be taken back to an odd address. */
  lemma {:induction false} SearchIsBruteForce(c: RegisterCampaign, level: nat, s: State, code: seq<Byte>, budget: nat,
                                              chain: RegisterChain, added: RegisterChain)
    requires c.Valid() && KeepsEven(c.m) && level < |c.plan| && ValidChain(c, chain) && EvenCounter(Aligned(s), chain)
    requires level + 1 < |c.plan| ==> EvenCounter(s, chain)
    ensures chain + added in Search(c, level, s, code, budget, chain) <==>
      BruteChain(c, level, s, code, budget, chain, added)
    decreases |added|
  {
    hide Search, Strikes, Reached, Struck, Leads, Run, Judged, BruteForce.EndsExploitable, With, Faulted, EvenCounter,
      Clock;
    var found := chain + added;
    if found in Search(c, level, s, code, budget, chain) {
      var f := FoundBy(c, level, s, code, budget, chain, found);
      ByFirst(c, level, s, code, budget, chain, added, f);
    }
    if added != [] && Reached(c, s, code, budget, chain, added[0]) &&
       Strikes(c, level, s, code, budget, chain, added[0]) {
      var f := added[0];
      StrikesValid(c, level, s, code, budget, chain, f);
      var y, left := Faulted(c, Struck(c, s, code, budget, chain, f), f), budget - (f.time - s.cpu.time);
      LeadsIs(c, level, y, code, left, chain, added);
      if level + 1 < |c.plan| {
        StrikesEven(c, level, s, code, budget, chain, f);
        AlignedEven(y, chain + [f]);
        if |added| > 1 {
          SearchIsBruteForce(c, level + 1, y, code, left, chain + [f], added[1..]);
        } else if chain + [f] + added[1..] in Search(c, level + 1, y, code, left, chain + [f]) {
          FoundExtends(c, level + 1, y, code, left, chain + [f], chain + [f] + added[1..]);
        }
      }
      assert By(c, level, s, code, budget, chain, f, found) <==> BruteChain(c, level, s, code, budget, chain, added);
      if By(c, level, s, code, budget, chain, f, found) {
        ByFound(c, level, s, code, budget, chain, f, found);
      }
    }
  }

  lemma {:induction false} AlignedEven(s: State, chain: RegisterChain)
    requires EvenCounter(s, chain)
    ensures EvenCounter(Aligned(s), chain)
  {
  }

  // ---- Threads ----------------------------------------------------------------------------------

  ghost function VisitOf(c: RegisterCampaign, s: State, code: seq<Byte>, budget: nat): nat -> seq<RegisterChain>
    requires c.Valid() && |c.plan| > 0
  {
    (i: nat) => if i < |Trace(c, s, code, budget, [])| then VisitAt(c, 0, s, code, budget, [], i) else []
  }

  lemma {:induction false} VisitsGather(c: RegisterCampaign, s: State, code: seq<Byte>, budget: nat, tickets: seq<nat>)
    requires c.Valid() && |c.plan| > 0
    requires forall i | 0 <= i < |tickets| :: tickets[i] < |Trace(c, s, code, budget, [])|
    ensures Visits(c, 0, s, code, budget, [], tickets) == Gather(VisitOf(c, s, code, budget), tickets)
    decreases |tickets|
  {
    hide VisitAt, Trace;
    if tickets != [] {
      VisitsGather(c, s, code, budget, tickets[..|tickets| - 1]);
    }
  }

  /** However many threads share the counter and however their steps interleave, the merged results are
      those of brute force. */
  lemma {:induction false} ThreadsFindBruteForce(c: RegisterCampaign, s: State, code: seq<Byte>, budget: nat,
                                                 workers: nat, steps: seq<Step>, q: Pool<RegisterChain>,
                                                 found: RegisterChain)
    requires c.Valid() && KeepsEven(c.m) && |c.plan| > 0 && (s.cpu.pc % 2 == 0 || |c.plan| == 1) && workers > 0
    requires var n := |Trace(c, s, code, budget, [])|;
      && n + workers < WORD_LIMIT
      && Reaches(Start(workers), n, t => Gather(VisitOf(c, s, code, budget), t), steps, q)
    requires AllMerged(q)
    ensures multiset(q.found) == multiset(Search(c, 0, s, code, budget, []))
    ensures found in q.found <==> BruteChain(c, 0, s, code, budget, [], found)
  {
    hide Reaches, AllMerged, VisitOf, Trace, Visits, Gather, BruteChain;
    var n := |Trace(c, s, code, budget, [])|;
    var visit := VisitOf(c, s, code, budget);
    var worker := t => Gather(visit, t);
    GatherIsAdditive(visit, worker);
    var handled := EveryIndexHandledOnce(workers, n, worker, steps, q);
    GatherPermuted(visit, handled, SearchSpec.UpTo(n));
    VisitsGather(c, s, code, budget, SearchSpec.UpTo(n));
    assert [] + found == found;
    SearchIsBruteForce(c, 0, s, code, budget, [], found);
    assert found in q.found <==> found in multiset(q.found);
    assert found in Search(c, 0, s, code, budget, []) <==> found in multiset(Search(c, 0, s, code, budget, []));
  }
}
