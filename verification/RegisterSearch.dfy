/** The search for register faults: what it computes, as functions of the state on entry, and why walking
    the trace by instruction count is always exact. */
module RegisterSearch {
  import opened Processor
  import opened TraceWalk
  import opened Redundancy
  import SearchSpec

  const SP: nat := 13
  const PC: nat := 15
  const STATUS: nat := 16

  /** `manipulated` is zero until the model is applied. */
  datatype RegisterFault = RegisterFault(model: nat, time: nat, iteration: nat, reg: nat, original: Word,
                                         manipulated: Word)

  type RegisterChain = seq<RegisterFault>

  /** A transient fault is taken back behind the faulted instruction; the other kind lasts until the
      register is overwritten.  The iteration counter sees the fault before it is numbered. */
  datatype RegisterModel = RegisterModel(
    transient: bool, iterations: RegisterFault -> nat, isApplicable: RegisterFault -> bool,
    inject: RegisterFault -> Word)

  /** `readBy` gives the registers one instruction reads, in order; `kept` is what the status register keeps
      of a word; `redundant` tests against known exploitable chains. */
  datatype RegisterCampaign = RegisterCampaign(
    m: Machine,
    ignore: Ignore,
    library: seq<RegisterModel>,
    plan: seq<nat>,
    readBy: (State, seq<Byte>) -> seq<nat>,
    kept: Word -> Word,
    redundant: RegisterChain -> bool)
  {
    predicate Valid() {
      forall i | 0 <= i < |plan| :: plan[i] < |library|
    }

    function Active(level: nat): RegisterModel
      requires Valid() && level < |plan|
    {
      library[plan[level]]
    }
  }

  // ---- Registers --------------------------------------------------------------------------------

  /** The program counter reads as the address of the instruction and four. */
  function ReadRegister(cpu: Cpu, r: nat): Word {
    if r == PC then (cpu.pc + 4) % WORD_LIMIT
    else if r == SP then cpu.sp
    else if r < |cpu.others| then cpu.others[r]
    else 0
  }

  function WriteRegister(kept: Word -> Word, cpu: Cpu, r: nat, v: Word): Cpu {
    if r == PC then cpu.(pc := v)
    else if r == SP then cpu.(sp := v - v % 4)
    else if r < |cpu.others| then cpu.(others := cpu.others[r := if r == STATUS then kept(v) else v])
    else cpu
  }

  /** The hooks of the transient faults injected at `time` put the original values back. */
  function Reverting(kept: Word -> Word, cpu: Cpu, hooks: RegisterChain, time: nat): Cpu
    decreases |hooks|
  {
    if hooks == [] then cpu
    else
      var f := hooks[0];
      Reverting(kept, if f.time == time then WriteRegister(kept, cpu, f.reg, f.original) else cpu, hooks[1..], time)
  }

  /** The emulator with hooks behind every executed instruction, as a machine of its own. */
  function Hooked(m: Machine, kept: Word -> Word, hooks: RegisterChain): Machine {
    m.(exec := (s: State, code: seq<Byte>) =>
      match m.exec(s, code)
      case Undecodable => Undecodable
      case Executed(cpu, stores, failed) => Executed(Reverting(kept, cpu, hooks, s.cpu.time), stores, failed))
  }

  predicate ValidChain(c: RegisterCampaign, chain: RegisterChain) {
    forall f | f in chain :: f.model < |c.library|
  }

  /** The faults of a chain that have a hook: each level adds its own behind those of the outer levels. */
  function HooksOf(c: RegisterCampaign, chain: RegisterChain): RegisterChain
    requires ValidChain(c, chain)
    decreases |chain|
  {
    if chain == [] then []
    else
      var n := |chain| - 1;
      HooksOf(c, chain[..n]) + if c.library[chain[n].model].transient then [chain[n]] else []
  }

  function With(c: RegisterCampaign, chain: RegisterChain): Machine
    requires ValidChain(c, chain)
  {
    Hooked(c.m, c.kept, HooksOf(c, chain))
  }

  // ---- The trace --------------------------------------------------------------------------------

  /** Sorted and without duplicates. */
  function SortedOnce(s: seq<nat>): (r: seq<nat>)
    ensures Strict(r) && forall x :: x in r <==> x in s
  {
    if s == [] then [] else
      assert forall x :: x in s <==> x == s[0] || x in s[1..];
      Inserted(s[0], SortedOnce(s[1..]))
  }

  function Inserted(x: nat, s: seq<nat>): (r: seq<nat>)
    requires Strict(s)
    ensures Strict(r) && forall y :: y in r <==> y == x || y in s
  {
    if s == [] || x < s[0] then [x] + s
    else if x == s[0] then s
    else
      var rest := Inserted(x, s[1..]);
      assert forall y :: y in s <==> y == s[0] || y in s[1..];
      StrictCons(s[0], rest);
      [s[0]] + rest
  }

  lemma {:induction false} StrictCons(x: nat, s: seq<nat>)
    requires Strict(s) && forall y | y in s :: x < y
    ensures Strict([x] + s) && forall y :: y in [x] + s <==> y == x || y in s
  {
    forall i, j | 0 <= i < j < |[x] + s|
      ensures ([x] + s)[i] < ([x] + s)[j]
    {
      assert ([x] + s)[j] == s[j - 1] && s[j - 1] in s && (i > 0 ==> ([x] + s)[i] == s[i - 1]);
    }
  }

  /** What one clock adds: the registers the instruction reads, none inside the ignored ranges. */
  function EntryAt(c: RegisterCampaign, s: State, code: seq<Byte>): seq<nat> {
    if Ignored(c.ignore, s.cpu) then [] else SortedOnce(c.readBy(s, code))
  }

  /** One entry for every executed instruction. */
  function Entries(c: RegisterCampaign, m: Machine, s: State, code: seq<Byte>, max: nat): (r: seq<seq<nat>>)
    ensures |r| <= max
    decreases max
  {
    if max == 0 || s.cpu.pc == NO_END then []
    else
      var t := Clock(m, s, code);
      (if t.ticked then [EntryAt(c, s, code)] else []) +
      if t.ret == Ok then Entries(c, m, t.state, code, max - 1) else []
  }

  /** Entry i belongs to clock i, which all clocks before reach. */
  lemma {:induction false} EntryIs(c: RegisterCampaign, m: Machine, s: State, code: seq<Byte>, max: nat, i: nat)
    requires i < |Entries(c, m, s, code, max)|
    ensures i < max && Runs(m, s, code, i)
    ensures Clock(m, After(m, s, code, i), code).ticked
    ensures Entries(c, m, s, code, max)[i] == EntryAt(c, After(m, s, code, i), code)
    decreases max
  {
    hide EntryAt, Clock;
    var t := Clock(m, s, code);
    if i > 0 {
      EntryIs(c, m, t.state, code, max - 1, i - 1);
    }
  }

  /** Every clock that executes an instruction within the budget has an entry. */
  lemma {:induction false} EntryOf(c: RegisterCampaign, m: Machine, s: State, code: seq<Byte>, max: nat, k: nat)
    requires KeepsEven(m) && s.cpu.pc % 2 == 0 && k < max && Runs(m, s, code, k)
    requires Clock(m, After(m, s, code, k), code).ticked
    ensures k < |Entries(c, m, s, code, max)|
    decreases k
  {
    hide EntryAt, Clock;
    if k > 0 {
      EvenAfter(m, s, code, 1);
      EntryOf(c, m, Clock(m, s, code).state, code, max - 1, k - 1);
    }
  }

  /** Emulating as many instructions as are known to succeed ends there, for lack of budget. */
  lemma {:induction false} RunByCount(m: Machine, s: State, code: seq<Byte>, n: nat)
    requires KeepsEven(m) && s.cpu.pc % 2 == 0 && Runs(m, s, code, n)
    ensures Run(m, s, code, NO_END, n) == Outcome(After(m, s, code, n), MaxInstructionsReached, n)
    decreases n
  {
    if n > 0 {
      RunByCount(m, Clock(m, s, code).state, code, n - 1);
    }
  }

  // ---- Where the walk stands --------------------------------------------------------------------

  /** Before instruction i of the trace; before the first one emulation has not started. */
  function Stand(m: Machine, s: State, code: seq<Byte>, i: nat): State
    requires Runs(m, Aligned(s), code, i)
  {
    if i == 0 then s else After(m, Aligned(s), code, i)
  }

  /** From any instruction of the trace, emulating by count ends before the later one it counts to. */
  lemma {:induction false} WalkByCount(m: Machine, s: State, code: seq<Byte>, i: nat, j: nat)
    requires KeepsEven(m) && i <= j && Runs(m, Aligned(s), code, j)
    ensures Runs(m, Aligned(s), code, i)
    ensures var o := Emulated(m, Stand(m, s, code, i), code, NO_END, j - i);
      o.ret == MaxInstructionsReached && o.steps == j - i && (i < j ==> o.state == Stand(m, s, code, j))
  {
    hide Clock, Run;
    RunsPrefix(m, Aligned(s), code, i, j);
    RunsSplit(m, Aligned(s), code, i, j - i);
    EvenAfter(m, Aligned(s), code, i);
    RunByCount(m, After(m, Aligned(s), code, i), code, j - i);
  }

  // ---- The search -------------------------------------------------------------------------------

  function Judged(m: Machine, o: Outcome): bool {
    o.ret == StopEmulationCalled && m.evaluate(o.state, o.state.cpu.pc) == Exploitable
  }

  /** The fault of one iteration before the model is applied. */
  function Blank(c: RegisterCampaign, level: nat, s: State, reg: nat, iteration: nat): RegisterFault
    requires c.Valid() && level < |c.plan|
  {
    RegisterFault(c.plan[level], s.cpu.time, iteration, reg, ReadRegister(s.cpu, reg), 0)
  }

  function Applied(model: RegisterModel, f: RegisterFault): RegisterFault {
    f.(manipulated := model.inject(f))
  }

  /** The faulted state the search goes on from. */
  function Faulted(c: RegisterCampaign, s: State, f: RegisterFault): State {
    s.(cpu := WriteRegister(c.kept, s.cpu, f.reg, f.manipulated))
  }

  /** Why an iteration is passed over: the tester rejects it, it changes nothing, it is redundant, or the
      register does not take the new value. */
  predicate Skipped(c: RegisterCampaign, level: nat, s: State, chain: RegisterChain, blank: RegisterFault)
    requires c.Valid() && level < |c.plan|
  {
    var f := Applied(c.Active(level), blank);
    !c.Active(level).isApplicable(blank) || f.original == f.manipulated || c.redundant(chain + [f])
    || ReadRegister(Faulted(c, s, f).cpu, f.reg) == f.original
  }

  /** A register already faulted at this moment, or still holding what an earlier fault put there. */
  predicate Processed(c: RegisterCampaign, s: State, chain: RegisterChain, reg: nat)
    requires ValidChain(c, chain)
  {
    || (exists f | f in chain :: f.reg == reg && f.time == s.cpu.time)
    || (exists f | f in chain ::
          !c.library[f.model].transient && f.reg == reg && f.manipulated == ReadRegister(s.cpu, reg))
  }

  function Trial(c: RegisterCampaign, level: nat, s: State, code: seq<Byte>, remaining: nat, chain: RegisterChain,
                 reg: nat, iteration: nat): seq<RegisterChain>
    requires c.Valid() && level < |c.plan| && ValidChain(c, chain)
    decreases |c.plan| - level, 0, 0
  {
    var blank := Blank(c, level, s, reg, iteration);
    if Skipped(c, level, s, chain, blank) then []
    else
      var f := Applied(c.Active(level), blank);
      var x := Faulted(c, s, f);
      if Judged(c.m, Emulated(With(c, chain + [f]), x, code, NO_END, remaining)) then [chain + [f]]
      else if level + 1 < |c.plan| && remaining > 0 then Search(c, level + 1, x, code, remaining, chain + [f])
      else []
  }

  function Trials(c: RegisterCampaign, level: nat, s: State, code: seq<Byte>, remaining: nat, chain: RegisterChain,
                  reg: nat, upTo: nat): seq<RegisterChain>
    requires c.Valid() && level < |c.plan| && ValidChain(c, chain)
    decreases |c.plan| - level, 1, upTo
  {
    if upTo == 0 then []
    else
      Trials(c, level, s, code, remaining, chain, reg, upTo - 1) +
      Trial(c, level, s, code, remaining, chain, reg, upTo - 1)
  }

  /** Everything found by faulting one register before one instruction. */
  function Fault(c: RegisterCampaign, level: nat, s: State, code: seq<Byte>, remaining: nat, chain: RegisterChain,
                 reg: nat): seq<RegisterChain>
    requires c.Valid() && level < |c.plan| && ValidChain(c, chain)
    decreases |c.plan| - level, 2, 0
  {
    if Processed(c, s, chain, reg) then []
    else Trials(c, level, s, code, remaining, chain, reg, c.Active(level).iterations(Blank(c, level, s, reg, 0)))
  }

  /** Everything found by faulting the registers of one entry. */
  function Visit(c: RegisterCampaign, level: nat, s: State, code: seq<Byte>, remaining: nat, chain: RegisterChain,
                 regs: seq<nat>): seq<RegisterChain>
    requires c.Valid() && level < |c.plan| && ValidChain(c, chain)
    decreases |c.plan| - level, 3, |regs|
  {
    if regs == [] then []
    else
      var n := |regs| - 1;
      Visit(c, level, s, code, remaining, chain, regs[..n]) + Fault(c, level, s, code, remaining, chain, regs[n])
  }

  function Trace(c: RegisterCampaign, s: State, code: seq<Byte>, budget: nat, chain: RegisterChain): seq<seq<nat>>
    requires ValidChain(c, chain)
  {
    Entries(c, With(c, chain), Aligned(s), code, budget)
  }

  /** What is found at one index of the trace. */
  function VisitAt(c: RegisterCampaign, level: nat, s: State, code: seq<Byte>, budget: nat, chain: RegisterChain,
                   i: nat): seq<RegisterChain>
    requires c.Valid() && level < |c.plan| && ValidChain(c, chain)
    requires i < |Trace(c, s, code, budget, chain)|
    decreases |c.plan| - level, 4, 0
  {
    EntryIs(c, With(c, chain), Aligned(s), code, budget, i);
    Visit(c, level, Stand(With(c, chain), s, code, i), code, budget - i, chain, Trace(c, s, code, budget, chain)[i])
  }

  function Visits(c: RegisterCampaign, level: nat, s: State, code: seq<Byte>, budget: nat, chain: RegisterChain,
                  tickets: seq<nat>): seq<RegisterChain>
    requires c.Valid() && level < |c.plan| && ValidChain(c, chain)
    requires forall i | 0 <= i < |tickets| :: tickets[i] < |Trace(c, s, code, budget, chain)|
    decreases |c.plan| - level, 5, |tickets|
  {
    if tickets == [] then []
    else
      var n := |tickets| - 1;
      Visits(c, level, s, code, budget, chain, tickets[..n]) + VisitAt(c, level, s, code, budget, chain, tickets[n])
  }

  function Search(c: RegisterCampaign, level: nat, s: State, code: seq<Byte>, budget: nat,
                  chain: RegisterChain): seq<RegisterChain>
    requires c.Valid() && level < |c.plan| && ValidChain(c, chain)
    decreases |c.plan| - level, 6, 0
  {
    Visits(c, level, s, code, budget, chain, SearchSpec.UpTo(|Trace(c, s, code, budget, chain)|))
  }

  // ---- The program counter stays even -----------------------------------------------------------

  /** What an injection may not disturb: values put back into the program counter are even, and an odd
      program counter is one just faulted. */
  ghost predicate EvenCounter(s: State, chain: RegisterChain) {
    && (forall f | f in chain && f.reg == PC :: f.original % 2 == 0)
    && (s.cpu.pc % 2 == 0 || exists f | f in chain :: f.reg == PC && f.time == s.cpu.time)
  }

  lemma {:induction false} RevertingEven(kept: Word -> Word, cpu: Cpu, hooks: RegisterChain, time: nat)
    requires cpu.pc % 2 == 0 && forall f | f in hooks && f.reg == PC :: f.original % 2 == 0
    ensures Reverting(kept, cpu, hooks, time).pc % 2 == 0
    decreases |hooks|
  {
    if hooks != [] {
      var h := hooks[0];
      var next := if h.time == time then WriteRegister(kept, cpu, h.reg, h.original) else cpu;
      RevertingEven(kept, next, hooks[1..], time);
    }
  }

  lemma {:induction false} HooksInChain(c: RegisterCampaign, chain: RegisterChain)
    requires ValidChain(c, chain)
    ensures forall f | f in HooksOf(c, chain) :: f in chain
    decreases |chain|
  {
    if chain != [] {
      HooksInChain(c, chain[..|chain| - 1]);
    }
  }

  lemma {:induction false} WithKeepsEven(c: RegisterCampaign, s: State, chain: RegisterChain)
    requires KeepsEven(c.m) && ValidChain(c, chain) && EvenCounter(s, chain)
    ensures KeepsEven(With(c, chain))
  {
    hide HooksOf, Reverting, WriteRegister;
    HooksInChain(c, chain);
    forall x: State, code | c.m.exec(x, code).Executed?
      ensures Reverting(c.kept, c.m.exec(x, code).cpu, HooksOf(c, chain), x.cpu.time).pc % 2 == 0
    {
      RevertingEven(c.kept, c.m.exec(x, code).cpu, HooksOf(c, chain), x.cpu.time);
    }
  }

  lemma {:induction false} StandEven(c: RegisterCampaign, s: State, code: seq<Byte>, chain: RegisterChain, i: nat)
    requires KeepsEven(c.m) && ValidChain(c, chain) && EvenCounter(s, chain)
    requires Runs(With(c, chain), Aligned(s), code, i)
    ensures EvenCounter(Stand(With(c, chain), s, code, i), chain)
  {
    hide With, Clock;
    WithKeepsEven(c, s, chain);
    EvenAfter(With(c, chain), Aligned(s), code, i);
  }

  lemma {:induction false} FaultedEven(c: RegisterCampaign, level: nat, s: State, chain: RegisterChain, reg: nat,
                                       iteration: nat)
    requires c.Valid() && level < |c.plan| && ValidChain(c, chain) && EvenCounter(s, chain)
    requires !Processed(c, s, chain, reg)
    ensures var f := Applied(c.Active(level), Blank(c, level, s, reg, iteration));
      ValidChain(c, chain + [f]) && EvenCounter(Faulted(c, s, f), chain + [f])
  {
    var f := Applied(c.Active(level), Blank(c, level, s, reg, iteration));
    assert forall g | g in chain + [f] :: g in chain || g == f;
    assert f in chain + [f];
    if reg != PC && s.cpu.pc % 2 != 0 {
      var g :| g in chain && g.reg == PC && g.time == s.cpu.time;
      assert g in chain + [f];
    }
  }
}
