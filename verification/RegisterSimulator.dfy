/** The search for register faults as it runs.  Snapshots are taken at their word here, a saved state for
    each level. */
module RegisterSimulator {
  import opened Processor
  import opened RegisterSearch
  import SearchSpec

  class RegisterThread {
    const c: RegisterCampaign
    const code: seq<Byte>
    var now: State
    var saved: seq<State>
    var hooks: RegisterChain
    var returnCode: Return
    var emulatedTime: nat
    var endReached: bool
    var decision: Decision
    var collecting: bool
    var entries: seq<seq<nat>>
    var newFaults: seq<RegisterChain>

    constructor (c: RegisterCampaign, code: seq<Byte>, start: State)
      ensures this.c == c && this.code == code && now == start && |saved| == |c.plan|
      ensures hooks == [] && !collecting && newFaults == []
    {
      this.c, this.code, now, saved := c, code, start, seq(|c.plan|, _ => start);
      hooks, collecting, entries, newFaults := [], false, [], [];
      returnCode, emulatedTime, endReached, decision := Ok, 0, false, Continue;
    }

    /** The machine the thread emulates. */
    ghost function Machine(): Machine
      reads this
    {
      Hooked(c.m, c.kept, hooks)
    }

    method WriteReg(reg: nat, value: Word)
      modifies `now
      ensures now == old(now).(cpu := WriteRegister(c.kept, old(now).cpu, reg, value))
    {
      now := now.(cpu := WriteRegister(c.kept, now.cpu, reg, value));
    }

    /** The hooks behind an executed instruction, before time advances. */
    method RunExecuteHooks()
      modifies `now
      ensures now == old(now).(cpu := Reverting(c.kept, old(now).cpu, hooks, old(now).cpu.time))
    {
      var time, i := now.cpu.time, 0;
      ghost var all := Reverting(c.kept, now.cpu, hooks, time);
      while i < |hooks|
        invariant 0 <= i <= |hooks|
        invariant now == old(now).(cpu := now.cpu)
        invariant all == Reverting(c.kept, now.cpu, hooks[i..], time)
      {
        assert hooks[i..][1..] == hooks[i + 1..];
        if hooks[i].time == time {
          WriteReg(hooks[i].reg, hooks[i].original);
        }
        i := i + 1;
      }
    }

    /** What executing a decoded instruction leaves: its stores, its hooks, and one clock more. */
    method FinishInstruction(cpu: Cpu, stores: seq<Store>, ghost failed: bool)
      requires c.m.exec(now, code) == Executed(cpu, stores, failed)
      modifies `now
      ensures now == ExecuteStep(Machine(), old(now), code).state
    {
      hide StoredAll, Reverting;
      var was := now;
      now := State(cpu.(time := was.cpu.time), StoredAll(c.m, was.ram, stores));
      RunExecuteHooks();
      RevertingTime(c.kept, cpu, hooks, was.cpu.time, was.cpu.time);
      SameStores(c.m, Machine(), was.ram, stores);
      now := now.(cpu := now.cpu.(time := was.cpu.time + 1));
    }

    /** One clock of the emulator. */
    method ClockCpu()
      requires returnCode == Ok
      modifies `now, `returnCode, `emulatedTime, `endReached, `decision, `entries
      ensures var t := Clock(Machine(), old(now), code);
        && now == t.state && returnCode == t.ret && emulatedTime == old(emulatedTime) + (if t.ticked then 1 else 0)
        && endReached == (old(endReached) || t.ret == StopEmulationCalled)
        && (t.ret == StopEmulationCalled ==> decision == c.m.evaluate(t.state, t.state.cpu.pc))
        && entries == old(entries) + (if collecting && t.ticked then [EntryAt(c, old(now), code)] else [])
    {
      hide SortedOnce, EntryAt, StoredAll, Reverting;
      if !Fetchable(c.m, code, now.cpu.pc) {
        returnCode := Error;
        return;
      }
      if now.cpu.pc in c.m.endAddresses {
        var judged := c.m.evaluate(now, now.cpu.pc);
        if judged != Continue {
          decision, endReached, returnCode := judged, true, StopEmulationCalled;
          return;
        }
      }
      var was := now;
      match c.m.exec(now, code)
      case Undecodable =>
        returnCode := Error;
      case Executed(cpu, stores, failed) =>
        FinishInstruction(cpu, stores, failed);
        if collecting {
          entries := entries + [EntryAt(c, was, code)];
        }
        emulatedTime := emulatedTime + 1;
        if failed {
          returnCode := Error;
        }
    }

    /** What is still to come completes the run and the entries it is to collect. */
    ghost predicate Underway(whole: Outcome, all: seq<seq<nat>>, max: nat)
      reads this
    {
      && emulatedTime <= max
      && (if returnCode == Ok then
            var rest := Run(Machine(), now, code, NO_END, max - emulatedTime);
            whole == rest.(steps := rest.steps + emulatedTime)
          else whole == Outcome(now, returnCode, emulatedTime))
      && all == entries +
         if collecting && returnCode == Ok then Entries(c, Machine(), now, code, max - emulatedTime) else []
    }

    /** One round of the loop of `emulate` whose tests let the clock run. */
    method Advance(ghost whole: Outcome, ghost all: seq<seq<nat>>, ghost max: nat)
      requires returnCode == Ok && Underway(whole, all, max) && emulatedTime < max && now.cpu.pc != NO_END
      modifies `now, `returnCode, `emulatedTime, `endReached, `decision, `entries
      ensures Underway(whole, all, max)
      ensures endReached == (old(endReached) || returnCode == StopEmulationCalled)
      ensures returnCode == StopEmulationCalled ==> decision == c.m.evaluate(now, now.cpu.pc)
      ensures returnCode == Ok ==> emulatedTime == old(emulatedTime) + 1
    {
      hide Clock, EntryAt, Hooked, Run, Entries;
      OneClock(c, Machine(), now, code, max - emulatedTime);
      ClockCpu();
    }

    /** Runs until an error, a stop, or the instruction budget. */
    method Emulate(maxInstructions: nat)
      modifies `now, `returnCode, `emulatedTime, `endReached, `decision, `entries
      ensures var o := Emulated(Machine(), old(now), code, NO_END, maxInstructions);
        && now == o.state && returnCode == o.ret && emulatedTime == o.steps
        && endReached == (old(endReached) || o.ret == StopEmulationCalled)
        && (o.ret == StopEmulationCalled ==> decision == c.m.evaluate(o.state, o.state.cpu.pc))
      ensures entries == old(entries) +
        if collecting then Entries(c, Machine(), Aligned(old(now)), code, maxInstructions) else []
    {
      hide Clock, EntryAt, Hooked;
      ghost var whole := Emulated(Machine(), now, code, NO_END, maxInstructions);
      ghost var all := entries + if collecting then Entries(c, Machine(), Aligned(now), code, maxInstructions) else [];
      returnCode, emulatedTime := Ok, 0;
      now := now.(cpu := now.cpu.(pc := now.cpu.pc - now.cpu.pc % 2));
      while returnCode == Ok
        invariant Underway(whole, all, maxInstructions)
        invariant endReached == (old(endReached) || returnCode == StopEmulationCalled)
        invariant returnCode == StopEmulationCalled ==> decision == c.m.evaluate(now, now.cpu.pc)
        decreases returnCode == Ok, maxInstructions - emulatedTime
      {
        if emulatedTime >= maxInstructions {
          returnCode := MaxInstructionsReached;
          break;
        }
        if now.cpu.pc == NO_END {
          returnCode := EndAddressReached;
          break;
        }
        Advance(whole, all, maxInstructions);
      }
    }

    /** What holds whenever the thread works on `level`. */
    ghost predicate Working(level: int, chain: RegisterChain)
      reads this
    {
      && c.Valid() && KeepsEven(c.m) && level < |c.plan| == |saved|
      && ValidChain(c, chain) && hooks == HooksOf(c, chain) && !collecting
    }

    /** The results of a level: all entries, or on the first level those whose indices the shared counter
        hands to this thread. */
    ghost function Found(level: nat, s: State, budget: nat, chain: RegisterChain, tickets: seq<nat>): seq<RegisterChain>
      requires c.Valid() && level < |c.plan| && ValidChain(c, chain)
      requires level == 0 ==> forall i | 0 <= i < |tickets| :: tickets[i] < |Trace(c, s, code, budget, chain)|
    {
      if level == 0 then Visits(c, level, s, code, budget, chain, tickets) else Search(c, level, s, code, budget, chain)
    }

    /** Runs one fault to the end of the budget. */
    method Judge(level: nat, remaining: nat, chain: RegisterChain, f: RegisterFault) returns (exploitable: bool)
      requires Working(level, chain) && ValidChain(c, chain + [f]) && hooks == HooksOf(c, chain)
      modifies `now, `hooks, `returnCode, `emulatedTime, `endReached, `decision, `entries
      ensures hooks == HooksOf(c, chain + [f])
      ensures exploitable ==
        Judged(c.m, Emulated(With(c, chain + [f]), Faulted(c, old(now), f), code, NO_END, remaining))
    {
      hide Run, Entries, EntryAt, Reverting;
      HooksMore(c, chain, f);
      WriteReg(f.reg, f.manipulated);
      if c.library[f.model].transient {
        hooks := hooks + [f];
      }
      endReached := false;
      Emulate(remaining);
      exploitable := endReached && decision == Exploitable;
    }

    /** One iteration of the level's model on one register, before the instruction the level stands at. */
    method TryRegisterFault(level: nat, remaining: nat, chain: RegisterChain, reg: nat, original: Word, time: nat,
                            iteration: nat)
      requires Working(level, chain) && EvenCounter(saved[level], chain) && !Processed(c, saved[level], chain, reg)
      requires original == ReadRegister(saved[level].cpu, reg) && time == saved[level].cpu.time
      modifies this
      ensures Working(level, chain) && saved[..level + 1] == old(saved[..level + 1])
      ensures newFaults == old(newFaults) + Trial(c, level, old(saved[level]), code, remaining, chain, reg, iteration)
      decreases |c.plan| - level, 0
    {
      hide Run, HooksOf, Search, With, EvenCounter, ReadRegister, WriteRegister, Processed;
      ghost var s := saved[level];
      var f := RegisterFault(c.plan[level], time, iteration, reg, original, 0);
      if !c.Active(level).isApplicable(f) {
        return;
      }
      f := Applied(c.Active(level), f);
      FaultedEven(c, level, s, chain, reg, iteration);
      now := saved[level];
      var value := ReadRegister(WriteRegister(c.kept, now.cpu, f.reg, f.manipulated), f.reg);
      if f.original == f.manipulated || c.redundant(chain + [f]) || value == f.original {
        return;
      }
      var exploitable := Judge(level, remaining, chain, f);
      if exploitable {
        newFaults := newFaults + [chain + [f]];
      } else if level < |c.plan| - 1 && remaining > 0 {
        now := saved[level];
        WriteReg(f.reg, f.manipulated);
        SimulateRegisterFault(level + 1, remaining, chain + [f], []);
      }
      HooksMore(c, chain, f);
      if c.library[f.model].transient {
        hooks := hooks[..|hooks| - 1];
      }
    }

    /** All iterations of the level's model on one register. */
    method FaultRegister(level: nat, remaining: nat, chain: RegisterChain, reg: nat)
      requires Working(level, chain) && EvenCounter(saved[level], chain)
      modifies this
      ensures Working(level, chain) && saved[..level + 1] == old(saved[..level + 1])
      ensures newFaults == old(newFaults) + Fault(c, level, old(saved[level]), code, remaining, chain, reg)
      decreases |c.plan| - level, 1
    {
      hide HooksOf, Trial, EvenCounter, ReadRegister;
      ghost var s, was, shots := saved[level], newFaults, saved[..level + 1];
      now := saved[level];
      var time, original := now.cpu.time, ReadRegister(now.cpu, reg);
      var done := AlreadyProcessed(chain, reg, time, original);
      if done {
        return;
      }
      var iteration := 0;
      while iteration < c.Active(level).iterations(RegisterFault(c.plan[level], time, 0, reg, original, 0))
        invariant 0 <= iteration <= c.Active(level).iterations(RegisterFault(c.plan[level], time, 0, reg, original, 0))
        invariant Working(level, chain) && saved[..level + 1] == shots && saved[level] == s
        invariant newFaults == was + Trials(c, level, s, code, remaining, chain, reg, iteration)
      {
        TryRegisterFault(level, remaining, chain, reg, original, time, iteration);
        assert saved[level] == saved[..level + 1][level];
        iteration := iteration + 1;
      }
    }

    /** The two scans over the chain: a fault of the same register now, or one that still holds. */
    method AlreadyProcessed(chain: RegisterChain, reg: nat, time: nat, original: Word) returns (yes: bool)
      requires ValidChain(c, chain)
      ensures forall s: State | s.cpu.time == time && ReadRegister(s.cpu, reg) == original ::
        yes == Processed(c, s, chain, reg)
    {
      var i := 0;
      while i < |chain|
        invariant 0 <= i <= |chain|
        invariant forall f | f in chain[..i] ::
          f.reg == reg ==> f.time != time && (c.library[f.model].transient || f.manipulated != original)
      {
        var f := chain[i];
        if f.reg == reg && (f.time == time || (!c.library[f.model].transient && f.manipulated == original)) {
          assert f in chain;
          return true;
        }
        i := i + 1;
      }
      assert chain[..i] == chain;
      return false;
    }

    /** All registers of one entry. */
    method VisitEntry(level: nat, remaining: nat, chain: RegisterChain, regs: seq<nat>)
      requires Working(level, chain) && EvenCounter(saved[level], chain)
      modifies this
      ensures Working(level, chain) && saved[..level + 1] == old(saved[..level + 1])
      ensures newFaults == old(newFaults) + Visit(c, level, old(saved[level]), code, remaining, chain, regs)
      decreases |c.plan| - level, 2
    {
      hide HooksOf, Fault, EvenCounter;
      ghost var s, was, shots := saved[level], newFaults, saved[..level + 1];
      var i := 0;
      while i < |regs|
        invariant 0 <= i <= |regs|
        invariant Working(level, chain) && saved[..level + 1] == shots && saved[level] == s
        invariant newFaults == was + Visit(c, level, s, code, remaining, chain, regs[..i])
      {
        FaultRegister(level, remaining, chain, regs[i]);
        assert saved[level] == saved[..level + 1][level];
        assert regs[..i + 1][..i] == regs[..i];
        i := i + 1;
      }
      assert regs[..i] == regs;
    }

    /** Runs once from the current state and notes the registers each instruction reads. */
    method CollectEntries(level: nat, remaining: nat, chain: RegisterChain) returns (trace: seq<seq<nat>>)
      requires Working(level, chain)
      modifies `now, `returnCode, `emulatedTime, `endReached, `decision, `entries, `collecting
      ensures Working(level, chain)
      ensures trace == Trace(c, old(now), code, remaining, chain)
    {
      hide Entries, Run, HooksOf, Reverting;
      collecting, entries := true, [];
      Emulate(remaining);
      collecting := false;
      trace := entries;
    }

    /** Brings the level from the last visited index to this one by counting instructions. */
    method WalkTo(level: nat, lastIndex: nat, currentIndex: nat, remainingCycles: nat, chain: RegisterChain,
                  ghost s: State, ghost budget: nat)
      returns (remaining: nat)
      requires Working(level, chain) && EvenCounter(s, chain)
      requires lastIndex <= currentIndex < |Trace(c, s, code, budget, chain)|
      requires Runs(With(c, chain), Aligned(s), code, lastIndex)
      requires saved[level] == Stand(With(c, chain), s, code, lastIndex)
      requires remainingCycles == budget - lastIndex
      modifies `now, `saved, `returnCode, `emulatedTime, `endReached, `decision, `entries
      ensures Working(level, chain) && saved[..level] == old(saved[..level])
      ensures Runs(With(c, chain), Aligned(s), code, currentIndex)
      ensures saved[level] == Stand(With(c, chain), s, code, currentIndex)
      ensures EvenCounter(saved[level], chain)
      ensures remaining == budget - currentIndex && remaining > 0
    {
      hide Entries, Run, HooksOf, Clock, EntryAt, EvenCounter, Stand;
      var m := With(c, chain);
      WithKeepsEven(c, s, chain);
      EntryIs(c, m, Aligned(s), code, budget, currentIndex);
      WalkByCount(m, s, code, lastIndex, currentIndex);
      StandEven(c, s, code, chain, currentIndex);
      now := saved[level];
      remaining := remainingCycles;
      if lastIndex < currentIndex {
        Emulate(currentIndex - lastIndex);
        remaining := remaining - emulatedTime;
        assert returnCode == MaxInstructionsReached;
      }
      saved := saved[level := now];
    }

    /** One more index of the trace: an entry without registers is passed over. */
    method NextEntry(level: nat, trace: seq<seq<nat>>, fromIndex: nat, currentIndex: nat, remainingCycles: nat,
                     chain: RegisterChain, ghost s: State, ghost budget: nat, ghost was: seq<RegisterChain>,
                     ghost all: seq<nat>, ghost next: nat)
      returns (lastIndex: nat, remaining: nat)
      requires Working(level, chain) && EvenCounter(s, chain) && trace == Trace(c, s, code, budget, chain)
      requires next < |all| && currentIndex == all[next] && fromIndex <= currentIndex
      requires forall i | 0 <= i < |all| :: all[i] < |trace|
      requires Runs(With(c, chain), Aligned(s), code, fromIndex) && remainingCycles == budget - fromIndex
      requires saved[level] == Stand(With(c, chain), s, code, fromIndex)
      requires newFaults == was + Visits(c, level, s, code, budget, chain, all[..next])
      modifies this
      ensures Working(level, chain) && saved[..level] == old(saved[..level])
      ensures lastIndex <= currentIndex && remaining == budget - lastIndex
      ensures Runs(With(c, chain), Aligned(s), code, lastIndex)
      ensures saved[level] == Stand(With(c, chain), s, code, lastIndex)
      ensures newFaults == was + Visits(c, level, s, code, budget, chain, all[..next + 1])
      decreases |c.plan| - level, 3
    {
      hide HooksOf, Visit, Visits, Trace, EvenCounter, With, Stand, Runs, ValidChain;
      lastIndex, remaining := fromIndex, remainingCycles;
      VisitsNext(c, level, s, code, budget, chain, all, next);
      if trace[currentIndex] != [] {
        remaining := WalkTo(level, fromIndex, currentIndex, remainingCycles, chain, s, budget);
        lastIndex := currentIndex;
        ghost var v := saved;
        VisitEntry(level, remaining, chain, trace[currentIndex]);
        assert saved[..level] == saved[..level + 1][..level] == v[..level + 1][..level] == v[..level];
        assert saved[level] == saved[..level + 1][level] == v[..level + 1][level] == v[level];
      }
    }

    method SimulateRegisterFault(level: nat, remainingCycles: nat, chain: RegisterChain, tickets: seq<nat>)
      requires Working(level - 1, chain) && level < |c.plan| && EvenCounter(now, chain)
      requires level == 0 ==>
        forall i | 0 <= i < |tickets| :: tickets[i] < |Trace(c, now, code, remainingCycles, chain)|
      requires level == 0 ==> forall i, j | 0 <= i < j < |tickets| :: tickets[i] < tickets[j]
      modifies this
      ensures Working(level - 1, chain) && saved[..level] == old(saved[..level])
      ensures newFaults == old(newFaults) + Found(level, old(now), remainingCycles, chain, tickets)
      decreases |c.plan| - level, 4
    {
      hide HooksOf, Visit, Visits, Trace, EvenCounter, With, Search, Found, Stand, Runs, ValidChain;
      ghost var s, budget, was, shots := now, remainingCycles, newFaults, saved[..level];
      saved := saved[level := now];
      var trace := CollectEntries(level, remainingCycles, chain);
      ghost var all := if level == 0 then tickets else SearchSpec.UpTo(|trace|);
      FoundFrom(level, s, budget, chain, tickets, all);
      var lastIndex: nat, currentIndex: int, remaining, next := 0, -1, remainingCycles, 0;
      while true
        invariant Working(level, chain) && saved[..level] == shots
        invariant 0 <= next <= |all| && (next == 0 ==> lastIndex == 0) && (next > 0 ==> lastIndex <= all[next - 1])
        invariant level != 0 ==> currentIndex == next - 1
        invariant Runs(With(c, chain), Aligned(s), code, lastIndex)
        invariant saved[level] == Stand(With(c, chain), s, code, lastIndex)
        invariant remaining == budget - lastIndex
        invariant newFaults == was + Visits(c, level, s, code, budget, chain, all[..next])
        decreases |all| - next
      {
        if level == 0 {
          currentIndex := if next < |tickets| then tickets[next] else |trace|;
        } else {
          currentIndex := currentIndex + 1;
        }
        if currentIndex >= |trace| {
          break;
        }
        lastIndex, remaining := NextEntry(level, trace, lastIndex, currentIndex, remaining, chain, s, budget, was, all,
                                          next);
        next := next + 1;
      }
      assert all[..next] == all;
    }

    lemma {:induction false} FoundFrom(level: nat, s: State, budget: nat, chain: RegisterChain, tickets: seq<nat>,
                                       all: seq<nat>)
      requires c.Valid() && level < |c.plan| && ValidChain(c, chain)
      requires all == if level == 0 then tickets else SearchSpec.UpTo(|Trace(c, s, code, budget, chain)|)
      requires forall i | 0 <= i < |all| :: all[i] < |Trace(c, s, code, budget, chain)|
      ensures Found(level, s, budget, chain, tickets) == Visits(c, level, s, code, budget, chain, all)
      ensures Visits(c, level, s, code, budget, chain, []) == []
      ensures Runs(With(c, chain), Aligned(s), code, 0) && Stand(With(c, chain), s, code, 0) == s
    {
      hide VisitAt, Trace, HooksOf;
    }
  }

  lemma {:induction false} RevertingTime(kept: Word -> Word, cpu: Cpu, hooks: RegisterChain, time: nat, t: nat)
    ensures Reverting(kept, cpu.(time := t), hooks, time) == Reverting(kept, cpu, hooks, time).(time := t)
    decreases |hooks|
  {
    if hooks != [] {
      var f := hooks[0];
      RevertingTime(kept, if f.time == time then WriteRegister(kept, cpu, f.reg, f.original) else cpu, hooks[1..], time,
                    t);
    }
  }

  lemma {:induction false} SameStores(m: Machine, n: Machine, ram: seq<Byte>, ws: seq<Store>)
    requires m.ramOffset == n.ramOffset
    ensures StoredAll(m, ram, ws) == StoredAll(n, ram, ws)
    decreases |ws|
  {
    if ws != [] {
      SameStores(m, n, Stored(m, ram, ws[0]), ws[1..]);
    }
  }

  lemma {:induction false} HooksMore(c: RegisterCampaign, chain: RegisterChain, f: RegisterFault)
    requires ValidChain(c, chain + [f])
    ensures ValidChain(c, chain)
    ensures HooksOf(c, chain + [f]) == HooksOf(c, chain) + if c.library[f.model].transient then [f] else []
  {
    assert forall g | g in chain :: g in chain + [f];
    assert (chain + [f])[..|chain|] == chain;
    assert f in chain + [f];
  }

  /** The results with one more index. */
  lemma {:induction false} VisitsNext(c: RegisterCampaign, level: nat, s: State, code: seq<Byte>, budget: nat,
                                      chain: RegisterChain, tickets: seq<nat>, n: nat)
    requires c.Valid() && level < |c.plan| && ValidChain(c, chain) && n < |tickets|
    requires forall i | 0 <= i < |tickets| :: tickets[i] < |Trace(c, s, code, budget, chain)|
    ensures var i, m := tickets[n], With(c, chain);
      && i < budget && Runs(m, Aligned(s), code, i)
      && Visits(c, level, s, code, budget, chain, tickets[..n + 1]) ==
         Visits(c, level, s, code, budget, chain, tickets[..n]) +
           Visit(c, level, Stand(m, s, code, i), code, budget - i, chain, Trace(c, s, code, budget, chain)[i])
    ensures Trace(c, s, code, budget, chain)[tickets[n]] == [] ==>
      Visits(c, level, s, code, budget, chain, tickets[..n + 1]) ==
        Visits(c, level, s, code, budget, chain, tickets[..n])
  {
    hide Fault, HooksOf, Entries, EntryAt, Reverting;
    EntryIs(c, With(c, chain), Aligned(s), code, budget, tickets[n]);
    assert tickets[..n + 1][..n] == tickets[..n];
  }

  /** A run and its entries start with one clock. */
  lemma {:induction false} OneClock(c: RegisterCampaign, m: Machine, s: State, code: seq<Byte>, max: nat)
    requires max > 0 && s.cpu.pc != NO_END
    ensures var t := Clock(m, s, code);
      && Run(m, s, code, NO_END, max) == (
        if t.ret != Ok then Outcome(t.state, t.ret, if t.ticked then 1 else 0)
        else var o := Run(m, t.state, code, NO_END, max - 1); o.(steps := o.steps + 1))
      && Entries(c, m, s, code, max) ==
        (if t.ticked then [EntryAt(c, s, code)] else []) +
          (if t.ret == Ok then Entries(c, m, t.state, code, max - 1) else [])
  {
  }
}
