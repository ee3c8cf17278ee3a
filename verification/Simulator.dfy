/** The recursive search as it runs: one emulator per thread, one snapshot per level, code bytes patched
    in place and put back. */
module Simulator {
  import opened Processor
  import opened DirtySpans
  import opened Emulation
  import opened Faults
  import opened SearchSpec
  import opened PermanentSearch
  import opened TraceWalk

  class ThreadContext {
    const emu: Emulator
    var newFaults: seq<Chain>

    constructor (emu: Emulator)
      ensures this.emu == emu && newFaults == []
    {
      this.emu := emu;
      newFaults := [];
    }

    ghost function Footprint(): set<object> {
      {this, emu, emu.ram, emu.flash} + emu.SnapshotObjects() + emu.SavedBuffers()
    }
  }

  class FaultSimulator {
    const c: Campaign

    constructor (c: Campaign)
      ensures this.c == c
    {
      this.c := c;
    }

    /** What holds of a thread whenever it works on `level`: the snapshots of the levels up to and
        including it are usable. */
    ghost predicate Working(t: ThreadContext, level: int)
      reads t.Footprint()
    {
      && c.Valid() && KeepsEven(c.m) && level < |c.plan|
      && t.emu.m == c.m && t.emu.ignore == c.ignore && |t.emu.snapshots| == |t.emu.saved| == |c.plan|
      && t.emu.Ready() && !t.emu.collecting
      && (forall x | x in c.sites :: Contains(c.m.flashOffset, t.emu.flash.Length, x.address, x.size))
      && Nested(t.emu.saved, level, t.emu.ram[..], c.m.ramOffset)
    }

    /** The saved state of a level. */
    ghost function SavedState(t: ThreadContext, level: nat): State
      requires level < |t.emu.saved|
      reads t.emu
    {
      State(t.emu.saved[level].cpu, t.emu.saved[level].ram)
    }

    method Emulate(t: ThreadContext, level: nat, until: Word, max: nat)
      requires Working(t, level)
      modifies t.emu, t.emu.ram, t.emu.SnapshotObjects()
      ensures Working(t, level) && Kept(old(t.emu.saved), t.emu.saved, level)
      ensures var o := Emulated(c.m, old(t.emu.Now()), t.emu.flash[..], until, max);
        && t.emu.Now() == o.state && t.emu.returnCode == o.ret && t.emu.emulatedTime == o.steps
        && t.emu.endReached == (old(t.emu.endReached) || o.ret == StopEmulationCalled)
        && (o.ret == StopEmulationCalled ==> t.emu.decision == c.m.evaluate(o.state, o.state.cpu.pc))
      ensures t.emu.flash[..] == old(t.emu.flash[..])
    {
      ghost var v, r := t.emu.saved, t.emu.ram[..];
      t.emu.Emulate(until, max);
      assert Observed(v, t.emu.saved, r, t.emu.ram[..], c.m.ramOffset);
      NestedObserved(v, t.emu.saved, level, r, t.emu.ram[..], c.m.ramOffset);
    }

    /** The same with the flag of the hooks cleared before. */
    method EmulateAfresh(t: ThreadContext, level: nat, max: nat)
      requires Working(t, level)
      modifies t.emu, t.emu.ram, t.emu.SnapshotObjects()
      ensures Working(t, level) && Kept(old(t.emu.saved), t.emu.saved, level)
      ensures var o := Emulated(c.m, old(t.emu.Now()), t.emu.flash[..], NO_END, max);
        && t.emu.Now() == o.state && t.emu.returnCode == o.ret
        && t.emu.endReached == (o.ret == StopEmulationCalled)
        && (t.emu.endReached ==> t.emu.decision == c.m.evaluate(o.state, o.state.cpu.pc))
      ensures t.emu.flash[..] == old(t.emu.flash[..])
    {
      hide OuterKept, Nested, AllInside, Run;
      t.emu.endReached := false;
      assert Working(t, level);
      Emulate(t, level, NO_END, max);
    }

    method Restore(t: ThreadContext, level: nat)
      requires Working(t, level)
      modifies t.emu`saved, t.emu`cpu, t.emu.ram, t.emu.snapshots[level]
      ensures Working(t, level) && Kept(old(t.emu.saved), t.emu.saved, level)
      ensures t.emu.Now() == SavedState(t, level)
      ensures t.emu.flash[..] == old(t.emu.flash[..])
    {
      ghost var v := t.emu.saved;
      NestedRestore(v, level, t.emu.ram[..], c.m.ramOffset);
      t.emu.Restore(level);
    }
  
    /** Builds the fault of one iteration; `skip` says the iteration is passed over. */
    method BuildFault(level: nat, time: nat, site: Site, original: seq<Byte>, iteration: nat, chain: Chain,
                      ghost code: seq<Byte>)
      returns (skip: bool, f: Fault)
      requires c.Valid() && level < |c.plan| && InFlash(c.m, code, site) && site.size in {2, 4}
      requires original == BytesAt(c.m, code, site)
      ensures var blank := Blank(c, level, time, code, site, iteration);
        f == Applied(c.Active(level), blank) && skip == Skipped(c, level, chain, blank)
      ensures f.address == site.address && f.original == original && |f.manipulated| == site.size
      ensures f.model == c.plan[level]
    {
      f := Fault(c.plan[level], time, iteration, site.address, site.size, original, []);
      var applicable := c.Active(level).isApplicable(f);
      f := Applied(c.Active(level), f);
      skip := !applicable || f.manipulated == f.original || c.redundant(chain + [f]);
    }

    /** Restores the level's snapshot and runs the faulted instruction on patched code. */
    method Inject(t: ThreadContext, level: nat, f: Fault, ghost code: seq<Byte>)
      requires Working(t, level) && t.emu.flash[..] == code
      requires Contains(c.m.flashOffset, |code|, f.address, |f.manipulated|)
      modifies t.Footprint()
      ensures Working(t, level) && Kept(old(t.emu.saved), t.emu.saved, level)
      ensures t.newFaults == old(t.newFaults)
      ensures t.emu.flash[..] == Patched(c.m, code, f.address, f.manipulated)
      ensures var o := FaultedStep(c, old(SavedState(t, level)), code, f);
        && t.emu.Now() == o.state && t.emu.returnCode == o.ret
        && t.emu.endReached == (o.ret == StopEmulationCalled)
        && (t.emu.endReached ==> t.emu.decision == c.m.evaluate(o.state, o.state.cpu.pc))
    {
      hide Run, OuterKept, Nested, AllInside, Emulator.Ready;
      ghost var v0, s := t.emu.saved, SavedState(t, level);
      Restore(t, level);
      t.emu.WriteFlash(f.address, f.manipulated);
      ghost var v1 := t.emu.saved;
      assert t.emu.Now() == s && t.emu.flash[..] == Patched(c.m, code, f.address, f.manipulated);
      EmulateAfresh(t, level, 1);
      KeptTrans(v0, v1, t.emu.saved, level);
    }

    /** Runs one fault to the end of the budget and puts the code bytes back. */
    method Judge(t: ThreadContext, level: nat, remaining: nat, site: Site, f: Fault, ghost code: seq<Byte>)
      returns (completed: bool, exploitable: bool)
      requires Working(t, level) && t.emu.flash[..] == code && InFlash(c.m, code, site)
      requires f.address == site.address && |f.manipulated| == site.size && f.original == BytesAt(c.m, code, site)
      modifies t.Footprint()
      ensures Working(t, level) && Kept(old(t.emu.saved), t.emu.saved, level) && t.emu.flash[..] == code
      ensures t.newFaults == old(t.newFaults)
      ensures var o := FaultedStep(c, old(SavedState(t, level)), code, f);
        && completed == (o.ret == StopEmulationCalled || o.ret == MaxInstructionsReached)
        && exploitable == (completed && Hits(c, o, code, remaining))
    {
      hide OuterKept, Nested, AllInside, Run, FaultedStep, BytesAt, Emulator.Ready;
      ghost var v0 := t.emu.saved;
      PatchUndone(c.m, code, site, f.manipulated);
      Inject(t, level, f, code);
      t.emu.WriteFlash(f.address, f.original);
      if t.emu.returnCode != StopEmulationCalled && t.emu.returnCode != MaxInstructionsReached {
        return false, false;
      }
      ghost var v1 := t.emu.saved;
      if !t.emu.endReached && remaining > 1 {
        Emulate(t, level, NO_END, remaining - 1);
        KeptTrans(v0, v1, t.emu.saved, level);
      }
      return true, t.emu.endReached && t.emu.decision == Exploitable;
    }

    /** Repeats the faulted instruction and searches for further faults behind it. */
    method Deepen(t: ThreadContext, level: nat, remaining: nat, chain: Chain, site: Site, f: Fault,
                  ghost code: seq<Byte>)
      requires Working(t, level) && !c.Active(level).permanent && t.emu.flash[..] == code && InFlash(c.m, code, site)
      requires f.address == site.address && |f.manipulated| == site.size && f.original == BytesAt(c.m, code, site)
      requires level + 1 < |c.plan| && remaining > 2 && ValidChain(c, chain + [f])
      modifies t.Footprint()
      ensures Working(t, level) && Kept(old(t.emu.saved), t.emu.saved, level) && t.emu.flash[..] == code
      ensures var o := FaultedStep(c, old(SavedState(t, level)), code, f);
        t.newFaults == old(t.newFaults) +
          if o.ret == MaxInstructionsReached
          then Search(c, level + 1, o.state, code, remaining - 1, chain + [f]) else []
      decreases |c.plan| - level, 0
    {
      hide OuterKept, Nested, AllInside, Run, FaultedStep, BytesAt, Emulator.Ready;
      ghost var v0 := t.emu.saved;
      PatchUndone(c.m, code, site, f.manipulated);
      Inject(t, level, f, code);
      t.emu.WriteFlash(f.address, f.original);
      if t.emu.returnCode != MaxInstructionsReached {
        return;
      }
      ghost var v1 := t.emu.saved;
      SimulateFault(t, level + 1, remaining - 1, chain + [f], 0, []);
      OuterKeptIsKept(v1, t.emu.saved, level);
      KeptTrans(v0, v1, t.emu.saved, level);
    }

    /** One iteration of a transient model at the instruction the level's snapshot stands before. */
    method TryInstructionFault(t: ThreadContext, level: nat, remaining: nat, chain: Chain, site: Site,
                               original: seq<Byte>, now: nat, iteration: nat, ghost code: seq<Byte>)
      requires Working(t, level) && !c.Active(level).permanent && ValidChain(c, chain)
      requires t.emu.flash[..] == code && InFlash(c.m, code, site) && site.size in {2, 4}
      requires original == BytesAt(c.m, code, site)
      requires now == SavedState(t, level).cpu.time
      modifies t.Footprint()
      ensures Working(t, level) && Kept(old(t.emu.saved), t.emu.saved, level) && t.emu.flash[..] == code
      ensures t.newFaults == old(t.newFaults) +
        Trial(c, level, old(SavedState(t, level)), code, remaining, chain, site, iteration)
      decreases |c.plan| - level, 1
    {
      hide OuterKept, Nested, AllInside, Run, Hits, FaultedStep, Search, Skipped, Blank, Emulator.Ready;
      ghost var v0 := t.emu.saved;
      KeptRefl(v0, level);
      var skip, f := BuildFault(level, now, site, original, iteration, chain, code);
      if skip {
        return;
      }
      var completed, exploitable := Judge(t, level, remaining, site, f, code);
      if !completed {
        return;
      }
      ghost var v1 := t.emu.saved;
      if exploitable {
        t.newFaults := t.newFaults + [chain + [f]];
      } else if level < |c.plan| - 1 && remaining > 2 {
        Deepen(t, level, remaining, chain, site, f, code);
        KeptTrans(v0, v1, t.emu.saved, level);
      }
    }

    /** The results of a level: all collected instructions, or on the first level those whose indices the
        shared counter hands to this thread. */
    ghost function Found(level: nat, s: State, code: seq<Byte>, budget: nat, chain: Chain,
                         tickets: seq<nat>): seq<Chain>
      requires c.Valid() && level < |c.plan|
      requires level == 0 ==> forall i | 0 <= i < |tickets| :: tickets[i] < |Sites(c, s, code, budget)|
    {
      if level == 0 then Visits(c, level, s, code, budget, chain, tickets) else Search(c, level, s, code, budget, chain)
    }

    /** On entering a level its snapshot is made complete. */
    method Enter(t: ThreadContext, level: nat)
      requires Working(t, level - 1) && level < |c.plan|
      modifies t.emu`saved, t.emu.snapshots[level], t.emu.snapshots[level].data
      ensures Working(t, level) && OuterKept(old(t.emu.saved), t.emu.saved, level)
      ensures t.emu.Now() == old(t.emu.Now()) && SavedState(t, level) == t.emu.Now()
      ensures t.emu.flash[..] == old(t.emu.flash[..])
    {
      ghost var v := t.emu.saved;
      t.emu.Reset(level);
      t.emu.Backup(level);
      NestedBackup(v, level, t.emu.Now(), c.m.ramOffset);
      assert t.emu.saved == v[level := BackedUp(v[level], t.emu.Now())];
    }

    /** Moves the level's snapshot to the current state. */
    method Backup(t: ThreadContext, level: nat)
      requires Working(t, level)
      modifies t.emu`saved, t.emu.snapshots[level], t.emu.snapshots[level].data
      ensures Working(t, level) && OuterKept(old(t.emu.saved), t.emu.saved, level)
      ensures t.emu.Now() == old(t.emu.Now()) && SavedState(t, level) == t.emu.Now()
      ensures t.emu.flash[..] == old(t.emu.flash[..])
    {
      ghost var v := t.emu.saved;
      t.emu.Backup(level);
      NestedShrink(v, level, level - 1, t.emu.ram[..], c.m.ramOffset);
      NestedBackup(v, level, t.emu.Now(), c.m.ramOffset);
    }

    /** Runs once from the current state and collects the instructions that may be faulted. */
    method GetInstructionOrder(t: ThreadContext, level: nat, remaining: nat) returns (sites: seq<Site>)
      requires Working(t, level)
      modifies t.emu, t.emu.ram, t.emu.SnapshotObjects()
      ensures Working(t, level) && Kept(old(t.emu.saved), t.emu.saved, level)
      ensures sites == Sites(c, old(t.emu.Now()), t.emu.flash[..], remaining)
      ensures t.emu.flash[..] == old(t.emu.flash[..])
    {
      ghost var v, r := t.emu.saved, t.emu.ram[..];
      t.emu.collecting, t.emu.collected := true, [];
      t.emu.Emulate(NO_END, remaining);
      t.emu.collecting := false;
      sites := t.emu.collected;
      assert Observed(v, t.emu.saved, r, t.emu.ram[..], c.m.ramOffset);
      NestedObserved(v, t.emu.saved, level, r, t.emu.ram[..], c.m.ramOffset);
    }

    /** Emulates from one collected address to the next; the budget never runs out on the way and the
        address is always reached. */
    method WalkTo(t: ThreadContext, level: nat, sites: seq<Site>, fromIndex: nat, currentIndex: nat,
                  remainingCycles: nat, ghost s: State, ghost code: seq<Byte>, ghost budget: nat)
      returns (lastIndex: nat, remaining: nat)
      requires Working(t, level) && t.emu.flash[..] == code && sites == Sites(c, s, code, budget)
      requires fromIndex <= currentIndex < |sites|
      requires Position(t.emu.Now(), remainingCycles) == Walk(c, s, code, budget, sites, fromIndex - 1)
      modifies t.emu, t.emu.ram, t.emu.SnapshotObjects()
      ensures Working(t, level) && Kept(old(t.emu.saved), t.emu.saved, level) && t.emu.flash[..] == code
      ensures lastIndex == currentIndex + 1 && remaining > 0
      ensures Position(t.emu.Now(), remaining) == Walk(c, s, code, budget, sites, currentIndex)
    {
      hide Run, Collected, OuterKept, Nested, AllInside, Emulator.Ready;
      ghost var v0 := t.emu.saved;
      KeptRefl(v0, level);
      lastIndex, remaining := fromIndex, remainingCycles;
      while lastIndex <= currentIndex
        invariant fromIndex <= lastIndex <= currentIndex + 1
        invariant Working(t, level) && Kept(v0, t.emu.saved, level) && t.emu.flash[..] == code
        invariant Position(t.emu.Now(), remaining) == Walk(c, s, code, budget, sites, lastIndex - 1)
        invariant lastIndex > fromIndex ==> remaining > 0
      {
        WalkContinues(c, s, code, budget, lastIndex);
        ghost var v := t.emu.saved;
        Emulate(t, level, sites[lastIndex].address, remaining);
        KeptTrans(v0, v, t.emu.saved, level);
        assert t.emu.returnCode == EndAddressReached;
        remaining := remaining - t.emu.emulatedTime;
        lastIndex := lastIndex + 1;
      }
    }

    method AlreadyProcessed(chain: Chain, address: Word) returns (yes: bool)
      requires c.Valid() && ValidChain(c, chain)
      ensures yes == FaultedPermanently(c, chain, address)
    {
      var i := 0;
      while i < |chain|
        invariant 0 <= i <= |chain|
        invariant forall f | f in chain[..i] :: !(c.library[f.model].permanent && f.address == address)
      {
        if c.library[chain[i].model].permanent && chain[i].address == address {
          return true;
        }
        i := i + 1;
      }
      assert chain[..i] == chain;
      return false;
    }

    /** All iterations at the instruction the level's snapshot stands before. */
    method TryIterations(t: ThreadContext, level: nat, remaining: nat, chain: Chain, site: Site, original: seq<Byte>,
                         now: nat, ghost code: seq<Byte>)
      requires Working(t, level) && !c.Active(level).permanent && ValidChain(c, chain)
      requires t.emu.flash[..] == code && InFlash(c.m, code, site) && site.size in {2, 4}
      requires original == BytesAt(c.m, code, site)
      requires now == SavedState(t, level).cpu.time
      modifies t.Footprint()
      ensures Working(t, level) && Kept(old(t.emu.saved), t.emu.saved, level) && t.emu.flash[..] == code
      ensures t.newFaults == old(t.newFaults) +
        Trials(c, level, old(SavedState(t, level)), code, remaining, chain, site, Iterations(c, level, now, code, site))
      decreases |c.plan| - level, 2
    {
      hide Trial, OuterKept, Nested, AllInside, BytesAt, Emulator.Ready;
      ghost var v0, s, new0 := t.emu.saved, SavedState(t, level), t.newFaults;
      KeptRefl(v0, level);
      var iteration := 0;
      while iteration < c.Active(level).iterations(Fault(c.plan[level], now, 0, site.address, site.size, original, []))
        invariant 0 <= iteration <= Iterations(c, level, now, code, site)
        invariant Working(t, level) && Kept(v0, t.emu.saved, level) && t.emu.flash[..] == code
        invariant SavedState(t, level) == s
        invariant t.newFaults == new0 + Trials(c, level, s, code, remaining, chain, site, iteration)
      {
        ghost var v, n := t.emu.saved, t.newFaults;
        TryInstructionFault(t, level, remaining, chain, site, original, now, iteration, code);
        KeptTrans(v0, v, t.emu.saved, level);
        assert t.newFaults == n + Trial(c, level, s, code, remaining, chain, site, iteration);
        iteration := iteration + 1;
      }
    }

    /** Brings the emulator and the level's snapshot from site `fromIndex` to site `currentIndex` and
        injects there. */
    method VisitIndex(t: ThreadContext, level: nat, sites: seq<Site>, fromIndex: nat, currentIndex: nat,
                      remainingCycles: nat, chain: Chain, ghost s: State, ghost code: seq<Byte>, ghost budget: nat)
      returns (lastIndex: nat, remaining: nat)
      requires Working(t, level) && !c.Active(level).permanent && ValidChain(c, chain)
      requires t.emu.flash[..] == code && sites == Sites(c, s, code, budget) && fromIndex <= currentIndex < |sites|
      requires Position(SavedState(t, level), remainingCycles) == Walk(c, s, code, budget, sites, fromIndex - 1)
      modifies t.Footprint()
      ensures Working(t, level) && OuterKept(old(t.emu.saved), t.emu.saved, level) && t.emu.flash[..] == code
      ensures lastIndex == currentIndex + 1
      ensures Position(SavedState(t, level), remaining) == Walk(c, s, code, budget, sites, currentIndex)
      ensures t.newFaults == old(t.newFaults) +
        Visit(c, level, Walk(c, s, code, budget, sites, currentIndex), code, chain, sites[currentIndex])
      decreases |c.plan| - level, 3
    {
      hide Walk, Trials, Sites, Iterations, OuterKept, Nested, AllInside, FaultedPermanently, Emulator.Ready;
      ghost var v0 := t.emu.saved;
      Restore(t, level);
      ghost var v1 := t.emu.saved;
      lastIndex, remaining := WalkTo(t, level, sites, fromIndex, currentIndex, remainingCycles, s, code, budget);
      OuterKeptTrans(v0, v1, t.emu.saved, level);
      ghost var v2 := t.emu.saved;
      Backup(t, level);
      OuterKeptTrans(v0, v2, t.emu.saved, level);
      ghost var v3 := t.emu.saved;
      var site := sites[currentIndex];
      SiteFits(c, s, code, budget, currentIndex);
      var done := AlreadyProcessed(chain, site.address);
      if !done {
        var original := t.emu.flash[site.address - c.m.flashOffset..site.address - c.m.flashOffset + site.size];
        TryIterations(t, level, remaining, chain, site, original, t.emu.cpu.time, code);
        OuterKeptTrans(v0, v3, t.emu.saved, level);
      }
    }

    method Begin(t: ThreadContext, level: nat, remaining: nat) returns (sites: seq<Site>)
      requires Working(t, level - 1) && level < |c.plan|
      modifies t.Footprint()
      ensures Working(t, level) && OuterKept(old(t.emu.saved), t.emu.saved, level)
      ensures t.emu.flash[..] == old(t.emu.flash[..])
      ensures sites == Sites(c, old(t.emu.Now()), t.emu.flash[..], remaining)
      ensures SavedState(t, level) == old(t.emu.Now()) && t.newFaults == old(t.newFaults)
    {
      hide Collected, OuterKept, Nested, AllInside, Emulator.Ready;
      ghost var v0 := t.emu.saved;
      Enter(t, level);
      ghost var v1 := t.emu.saved;
      sites := GetInstructionOrder(t, level, remaining);
      OuterKeptTrans(v0, v1, t.emu.saved, level);
    }

    /** One more site of the level. */
    method NextSite(t: ThreadContext, level: nat, sites: seq<Site>, fromIndex: nat, currentIndex: nat,
                    remainingCycles: nat, chain: Chain, ghost s: State, ghost code: seq<Byte>, ghost budget: nat,
                    ghost v0: seq<Saved>, ghost new0: seq<Chain>, ghost all: seq<nat>, ghost next: nat)
      returns (lastIndex: nat, remaining: nat)
      requires Working(t, level) && !c.Active(level).permanent && ValidChain(c, chain)
      requires OuterKept(v0, t.emu.saved, level)
      requires t.emu.flash[..] == code && sites == Sites(c, s, code, budget) && fromIndex <= currentIndex < |sites|
      requires next < |all| && currentIndex == all[next] && forall i | 0 <= i < |all| :: all[i] < |sites|
      requires Position(SavedState(t, level), remainingCycles) == Walk(c, s, code, budget, sites, fromIndex - 1)
      requires t.newFaults == new0 + Visits(c, level, s, code, budget, chain, all[..next])
      modifies t.Footprint()
      ensures Working(t, level) && OuterKept(v0, t.emu.saved, level) && t.emu.flash[..] == code
      ensures lastIndex == currentIndex + 1
      ensures Position(SavedState(t, level), remaining) == Walk(c, s, code, budget, sites, currentIndex)
      ensures t.newFaults == new0 + Visits(c, level, s, code, budget, chain, all[..next + 1])
      decreases |c.plan| - level, 4
    {
      hide Visit, Visits, Walk, Sites, Kept, OuterKept, Nested, AllInside, ValidChain, Emulator.Ready;
      ghost var v := t.emu.saved;
      VisitsStep(c, level, s, code, budget, chain, all, next);
      lastIndex, remaining := VisitIndex(t, level, sites, fromIndex, currentIndex, remainingCycles, chain, s, code,
                                         budget);
      OuterKeptTrans(v0, v, t.emu.saved, level);
    }

    method SimulateInstructionFault(t: ThreadContext, level: nat, remainingCycles: nat, chain: Chain, tickets: seq<nat>)
      requires Working(t, level - 1) && level < |c.plan| && !c.Active(level).permanent && ValidChain(c, chain)
      requires level == 0 ==>
        forall i | 0 <= i < |tickets| :: tickets[i] < |Sites(c, t.emu.Now(), t.emu.flash[..], remainingCycles)|
      requires level == 0 ==> forall i, j | 0 <= i < j < |tickets| :: tickets[i] < tickets[j]
      modifies t.Footprint()
      ensures Working(t, level - 1) && OuterKept(old(t.emu.saved), t.emu.saved, level)
      ensures t.emu.flash[..] == old(t.emu.flash[..])
      ensures t.newFaults == old(t.newFaults) +
        Found(level, old(t.emu.Now()), old(t.emu.flash[..]), remainingCycles, chain, tickets)
      decreases |c.plan| - level, 5
    {
      hide Visit, Visits, Walk, Sites, Search, Found, Kept, OuterKept, Nested, AllInside, SavedState, ValidChain,
        Emulator.Ready, UpTo, KeepsEven, Contains;
      ghost var s, code, budget, v0 := t.emu.Now(), t.emu.flash[..], remainingCycles, t.emu.saved;
      ghost var new0 := t.newFaults;
      var sites := Begin(t, level, remainingCycles);
      ghost var all := if level == 0 then tickets else UpTo(|sites|);
      FoundFrom(level, s, code, budget, chain, tickets, all);
      var lastIndex: int, currentIndex: int, remaining, next := 0, -1, remainingCycles, 0;
      while true
        invariant Working(t, level) && OuterKept(v0, t.emu.saved, level) && t.emu.flash[..] == code
        invariant 0 <= next <= |all| && lastIndex == (if next == 0 then 0 else all[next - 1] + 1) <= |sites|
        invariant level != 0 ==> currentIndex == next - 1
        invariant Position(SavedState(t, level), remaining) == Walk(c, s, code, budget, sites, lastIndex - 1)
        invariant t.newFaults == new0 + Visits(c, level, s, code, budget, chain, all[..next])
        decreases |all| - next
      {
        if level == 0 {
          currentIndex := if next < |tickets| then tickets[next] else |sites|;
        } else {
          currentIndex := currentIndex + 1;
        }
        if currentIndex >= |sites| {
          break;
        }
        lastIndex, remaining := NextSite(t, level, sites, lastIndex, currentIndex, remaining, chain, s, code, budget,
                                         v0, new0, all, next);
        next := next + 1;
      }
      assert all[..next] == all && next == |all|;
      WorkingBelow(t, level);
    }

    /** One iteration of a permanent model: the patched code is judged, or handed to the next level. */
    method TryPermanentFault(t: ThreadContext, level: nat, remaining: nat, chain: Chain, index: nat,
                             original: seq<Byte>, time: nat, iteration: nat, ghost s: State, ghost code: seq<Byte>)
      requires Working(t, level) && c.Active(level).permanent && ValidChain(c, chain)
      requires index < |c.sites| && t.emu.flash[..] == code && original == BytesAt(c.m, code, c.sites[index])
      requires s == SavedState(t, level) && time == s.cpu.time
      requires iteration < Iterations(c, level, time, code, c.sites[index])
      requires forall f | f in chain :: f.address != c.sites[index].address
      modifies t.Footprint()
      ensures Working(t, level) && Kept(old(t.emu.saved), t.emu.saved, level) && t.emu.flash[..] == code
      ensures Extends(c, level, s, code, remaining, chain, old(t.newFaults), t.newFaults)
      ensures OneVerdict(c) ==>
        t.newFaults == old(t.newFaults) + PermanentTrial(c, level, s, code, remaining, chain, index, iteration)
      decreases |c.plan| - level, 3
    {
      hide OuterKept, Nested, AllInside, Pushed, Permitted, Skipped, Blank, Iterations, Applied, PermanentRun,
        OneVerdict, Run, Emulator.Ready;
      KeptRefl(t.emu.saved, level);
      var site := c.sites[index];
      var skip, f := BuildFault(level, time, site, original, iteration, chain, code);
      var decoded := c.decodes(t.emu.cpu, site.address, f.manipulated);
      SameVerdict(t.emu.cpu, s.cpu, site.address, f.manipulated);
      if skip || !decoded {
        return;
      }
      IsPermitted(level, s, code, chain, index, iteration, f);
      InjectPermanent(t, level, remaining, chain, index, f, iteration, s, code);
    }

    /** Patches the code, runs, and puts the code back. */
    method InjectPermanent(t: ThreadContext, level: nat, remaining: nat, chain: Chain, index: nat, f: Fault,
                           ghost iteration: nat, ghost s: State, ghost code: seq<Byte>)
      requires Working(t, level) && c.Active(level).permanent && ValidChain(c, chain) && s == SavedState(t, level)
      requires index < |c.sites| && t.emu.flash[..] == code
      requires f.original == BytesAt(c.m, code, c.sites[index])
      requires f.address == c.sites[index].address && |f.manipulated| == c.sites[index].size && f.model == c.plan[level]
      requires Permitted(c, level, s, code, chain, c.sites[index], iteration, f)
      modifies t.Footprint()
      ensures Working(t, level) && Kept(old(t.emu.saved), t.emu.saved, level) && t.emu.flash[..] == code
      ensures Extends(c, level, s, code, remaining, chain, old(t.newFaults), t.newFaults)
      ensures OneVerdict(c) ==>
        t.newFaults == old(t.newFaults) +
        PermanentRun(c, level, s, Patched(c.m, code, f.address, f.manipulated), remaining, chain + [f], index)
      decreases |c.plan| - level, 2
    {
      hide OuterKept, Nested, AllInside, Pushed, Permitted, PermanentRun, OneVerdict, Extends, Emulator.Ready;
      ghost var v0 := t.emu.saved;
      PatchUndone(c.m, code, c.sites[index], f.manipulated);
      Restore(t, level);
      t.emu.WriteFlash(f.address, f.manipulated);
      ghost var v1 := t.emu.saved;
      RunPermanent(t, level, remaining, chain, index, f, iteration, s, code);
      KeptTrans(v0, v1, t.emu.saved, level);
      t.emu.WriteFlash(f.address, f.original);
    }

    /** What follows on patched code. */
    method RunPermanent(t: ThreadContext, level: nat, remaining: nat, chain: Chain, index: nat, f: Fault,
                        ghost iteration: nat, ghost s: State, ghost code: seq<Byte>)
      requires Working(t, level) && c.Active(level).permanent && ValidChain(c, chain) && t.emu.Now() == s
      requires index < |c.sites| && Permitted(c, level, s, code, chain, c.sites[index], iteration, f)
      requires t.emu.flash[..] == Patched(c.m, code, f.address, f.manipulated)
      modifies t.Footprint()
      ensures Working(t, level) && Kept(old(t.emu.saved), t.emu.saved, level) && t.emu.flash[..] == old(t.emu.flash[..])
      ensures Extends(c, level, s, code, remaining, chain, old(t.newFaults), t.newFaults)
      ensures OneVerdict(c) ==>
        t.newFaults == old(t.newFaults) + PermanentRun(c, level, s, t.emu.flash[..], remaining, chain + [f], index)
      decreases |c.plan| - level, 1
    {
      hide OuterKept, Nested, AllInside, Pushed, FullSearch, OneVerdict, Run, Extends, Emulator.Ready;
      if level == |c.plan| - 1 {
        JudgePermanent(t, level, remaining, chain, f, c.sites[index], iteration, s, code);
      } else {
        DeepenPermanent(t, level, remaining, chain, f, index, iteration, s, code);
      }
    }

    lemma {:induction false} SameVerdict(p: Cpu, q: Cpu, address: Word, bytes: seq<Byte>)
      ensures OneVerdict(c) ==> c.decodes(p, address, bytes) == c.decodes(q, address, bytes)
    {
    }

    lemma {:induction false} IsPermitted(level: nat, s: State, code: seq<Byte>, chain: Chain, index: nat,
                                         iteration: nat, f: Fault)
      requires c.Valid() && level < |c.plan| && index < |c.sites| && InFlash(c.m, code, c.sites[index])
      requires forall x | x in chain :: x.address != c.sites[index].address
      requires iteration < Iterations(c, level, s.cpu.time, code, c.sites[index])
      requires var blank := Blank(c, level, s.cpu.time, code, c.sites[index], iteration);
        !Skipped(c, level, chain, blank) && f == Applied(c.Active(level), blank)
      ensures Permitted(c, level, s, code, chain, c.sites[index], iteration, f)
    {
    }

    /** The last level: the whole remaining run on patched code decides. */
    method JudgePermanent(t: ThreadContext, level: nat, remaining: nat, chain: Chain, f: Fault, ghost site: Site,
                          ghost iteration: nat, ghost s: State, ghost code: seq<Byte>)
      requires Working(t, level) && c.Active(level).permanent && level == |c.plan| - 1 && t.emu.Now() == s
      requires Permitted(c, level, s, code, chain, site, iteration, f)
      requires t.emu.flash[..] == Patched(c.m, code, f.address, f.manipulated)
      modifies t.Footprint()
      ensures Working(t, level) && Kept(old(t.emu.saved), t.emu.saved, level) && t.emu.flash[..] == old(t.emu.flash[..])
      ensures Extends(c, level, s, code, remaining, chain, old(t.newFaults), t.newFaults)
      ensures t.newFaults == old(t.newFaults) +
        if Exploits(Emulated(c.m, s, t.emu.flash[..], NO_END, remaining), c.m) then [chain + [f]] else []
    {
      hide OuterKept, Nested, AllInside, Run, Search, Emulator.Ready;
      EmulateAfresh(t, level, remaining);
      if t.emu.endReached && t.emu.decision == Exploitable {
        assert PushedBy(c, level, s, code, remaining, chain, chain + [f], site, iteration);
        t.newFaults := t.newFaults + [chain + [f]];
      }
    }

    method DeepenPermanent(t: ThreadContext, level: nat, remaining: nat, chain: Chain, f: Fault, index: nat,
                           ghost iteration: nat, ghost s: State, ghost code: seq<Byte>)
      requires Working(t, level) && c.Active(level).permanent && level + 1 < |c.plan| && t.emu.Now() == s
      requires ValidChain(c, chain)
      requires index < |c.sites| && Permitted(c, level, s, code, chain, c.sites[index], iteration, f)
      requires t.emu.flash[..] == Patched(c.m, code, f.address, f.manipulated)
      modifies t.Footprint()
      ensures Working(t, level) && Kept(old(t.emu.saved), t.emu.saved, level) && t.emu.flash[..] == old(t.emu.flash[..])
      ensures Extends(c, level, s, code, remaining, chain, old(t.newFaults), t.newFaults)
      ensures OneVerdict(c) ==>
        t.newFaults == old(t.newFaults) +
        FullSearch(c, level + 1, s, t.emu.flash[..], remaining, chain + [f],
                   if c.plan[level + 1] == c.plan[level] then index + 1 else 0)
      decreases |c.plan| - level, 0
    {
      hide OuterKept, Nested, AllInside, Run, Search, FullSearch, OneVerdict, Emulator.Ready;
      ghost var v0, new0 := t.emu.saved, t.newFaults;
      var nextRecursion := if c.plan[level + 1] == c.plan[level] then index + 1 else 0;
      SimulateFault(t, level + 1, remaining, chain + [f], nextRecursion, []);
      OuterKeptIsKept(v0, t.emu.saved, level);
      forall i | |new0| <= i < |t.newFaults|
        ensures Pushed(c, level, s, code, remaining, chain, t.newFaults[i])
      {
        assert PushedBy(c, level, s, code, remaining, chain, t.newFaults[i], c.sites[index], iteration);
      }
    }

    /** Permanent faults are tried at every static instruction not faulted already. */
    method SimulatePermanentInstructionFault(t: ThreadContext, level: nat, remaining: nat, chain: Chain,
                                             recursionData: nat, tickets: seq<nat>)
      requires Working(t, level - 1) && level < |c.plan| && c.Active(level).permanent && ValidChain(c, chain)
      requires level == 0 ==> forall i | 0 <= i < |tickets| :: tickets[i] < |c.sites|
      modifies t.Footprint()
      ensures Working(t, level - 1) && OuterKept(old(t.emu.saved), t.emu.saved, level)
      ensures t.emu.flash[..] == old(t.emu.flash[..])
      ensures Extends(c, level, old(t.emu.Now()), old(t.emu.flash[..]), remaining, chain, old(t.newFaults), t.newFaults)
      ensures OneVerdict(c) ==>
        t.newFaults == old(t.newFaults) +
        PermanentVisits(c, level, old(t.emu.Now()), old(t.emu.flash[..]), remaining, chain,
                        Indices(level, recursionData, tickets))
      decreases |c.plan| - level, 6
    {
      hide OuterKept, Nested, AllInside, Pushed, PermanentVisits, OneVerdict, ValidChain, Extends, Emulator.Ready;
      ghost var s, code, v0, new0 := t.emu.Now(), t.emu.flash[..], t.emu.saved, t.newFaults;
      Enter(t, level);
      var time := t.emu.cpu.time;
      ghost var all := Indices(level, recursionData, tickets);
      NothingFound(level, s, code, remaining, chain, new0);
      var currentIndex: int, next := recursionData - 1, 0;
      while true
        invariant Working(t, level) && OuterKept(v0, t.emu.saved, level) && t.emu.flash[..] == code
        invariant SavedState(t, level) == s
        invariant 0 <= next <= |all| && (level != 0 ==> currentIndex == recursionData + next - 1)
        invariant Extends(c, level, s, code, remaining, chain, new0, t.newFaults)
        invariant OneVerdict(c) ==>
          t.newFaults == new0 + PermanentVisits(c, level, s, code, remaining, chain, all[..next])
        decreases |all| - next
      {
        if level == 0 {
          currentIndex := if next < |tickets| then tickets[next] else |c.sites|;
        } else {
          currentIndex := currentIndex + 1;
        }
        if currentIndex >= |c.sites| {
          break;
        }
        NextPermanentSite(t, level, remaining, chain, currentIndex, time, s, code, v0, new0, all, next);
        next := next + 1;
      }
      assert all[..next] == all;
      WorkingBelow(t, level);
    }

    /** The static instructions a level tries: on the first one those the shared counter hands to this thread. */
    ghost function Indices(level: nat, recursionData: nat, tickets: seq<nat>): (r: seq<nat>)
      requires level == 0 ==> forall i | 0 <= i < |tickets| :: tickets[i] < |c.sites|
      ensures forall i | 0 <= i < |r| :: r[i] < |c.sites|
    {
      if level == 0 then tickets else Range(recursionData, |c.sites|)
    }

    lemma {:induction false} NothingFound(level: nat, s: State, code: seq<Byte>, remaining: nat, chain: Chain,
                                          faults: seq<Chain>)
      requires c.Valid() && level < |c.plan|
      ensures PermanentVisits(c, level, s, code, remaining, chain, []) == []
      ensures Extends(c, level, s, code, remaining, chain, faults, faults)
    {
    }

    /** One more static instruction of the level. */
    method NextPermanentSite(t: ThreadContext, level: nat, remaining: nat, chain: Chain, index: nat, time: nat,
                             ghost s: State, ghost code: seq<Byte>, ghost v0: seq<Saved>, ghost new0: seq<Chain>,
                             ghost all: seq<nat>, ghost next: nat)
      requires Working(t, level) && c.Active(level).permanent && ValidChain(c, chain)
      requires OuterKept(v0, t.emu.saved, level)
      requires index < |c.sites| && t.emu.flash[..] == code && s == SavedState(t, level) && time == s.cpu.time
      requires next < |all| && index == all[next] && forall i | 0 <= i < |all| :: all[i] < |c.sites|
      requires Extends(c, level, s, code, remaining, chain, new0, t.newFaults)
      requires OneVerdict(c) ==> t.newFaults == new0 + PermanentVisits(c, level, s, code, remaining, chain, all[..next])
      modifies t.Footprint()
      ensures Working(t, level) && OuterKept(v0, t.emu.saved, level) && t.emu.flash[..] == code
      ensures SavedState(t, level) == s
      ensures Extends(c, level, s, code, remaining, chain, new0, t.newFaults)
      ensures OneVerdict(c) ==>
        t.newFaults == new0 + PermanentVisits(c, level, s, code, remaining, chain, all[..next + 1])
      decreases |c.plan| - level, 5
    {
      hide OuterKept, Nested, AllInside, Pushed, PermanentVisits, PermanentVisit, OneVerdict, Extends, Emulator.Ready;
      ghost var v, n := t.emu.saved, t.newFaults;
      PermanentVisitsStep(c, level, s, code, remaining, chain, all, next);
      VisitPermanentSite(t, level, remaining, chain, index, time, s, code);
      OuterKeptTrans(v0, v, t.emu.saved, level);
      ExtendsTrans(c, level, s, code, remaining, chain, new0, n, t.newFaults);
    }

    method VisitPermanentSite(t: ThreadContext, level: nat, remaining: nat, chain: Chain, index: nat, time: nat,
                              ghost s: State, ghost code: seq<Byte>)
      requires Working(t, level) && c.Active(level).permanent && ValidChain(c, chain)
      requires index < |c.sites| && t.emu.flash[..] == code && s == SavedState(t, level) && time == s.cpu.time
      modifies t.Footprint()
      ensures Working(t, level) && Kept(old(t.emu.saved), t.emu.saved, level) && t.emu.flash[..] == code
      ensures Extends(c, level, s, code, remaining, chain, old(t.newFaults), t.newFaults)
      ensures OneVerdict(c) ==>
        t.newFaults == old(t.newFaults) + PermanentVisit(c, level, s, code, remaining, chain, index)
      decreases |c.plan| - level, 4
    {
      hide OuterKept, Nested, AllInside, Pushed, PermanentTrial, OneVerdict, Emulator.Ready;
      ghost var v0, new0 := t.emu.saved, t.newFaults;
      KeptRefl(v0, level);
      var site := c.sites[index];
      if exists i | 0 <= i < |chain| :: chain[i].address == site.address {
        return;
      }
      var original := t.emu.flash[site.address - c.m.flashOffset..site.address - c.m.flashOffset + site.size];
      var iteration := 0;
      while iteration < c.Active(level).iterations(Fault(c.plan[level], time, 0, site.address, site.size, original, []))
        invariant 0 <= iteration <= Iterations(c, level, time, code, site)
        invariant Working(t, level) && Kept(v0, t.emu.saved, level) && t.emu.flash[..] == code
        invariant SavedState(t, level) == s
        invariant Extends(c, level, s, code, remaining, chain, new0, t.newFaults)
        invariant OneVerdict(c) ==>
          t.newFaults == new0 + PermanentTrials(c, level, s, code, remaining, chain, index, iteration)
      {
        ghost var v, n := t.emu.saved, t.newFaults;
        TryPermanentFault(t, level, remaining, chain, index, original, time, iteration, s, code);
        KeptTrans(v0, v, t.emu.saved, level);
        ExtendsTrans(c, level, s, code, remaining, chain, new0, n, t.newFaults);
        iteration := iteration + 1;
      }
    }

    /** The results of a level of either kind. */
    ghost function FoundOf(level: nat, s: State, code: seq<Byte>, budget: nat, chain: Chain, from: nat,
                           tickets: seq<nat>): seq<Chain>
      requires c.Valid() && level < |c.plan|
      requires level == 0 ==> forall i | 0 <= i < |tickets| ::
        tickets[i] < if c.Active(0).permanent then |c.sites| else |Sites(c, s, code, budget)|
    {
      if level > 0 then FullSearch(c, level, s, code, budget, chain, from)
      else if c.Active(0).permanent then PermanentVisits(c, 0, s, code, budget, chain, tickets)
      else Visits(c, 0, s, code, budget, chain, tickets)
    }

    /** Dispatches on the kind of the level's model. */
    method SimulateFault(t: ThreadContext, level: nat, remaining: nat, chain: Chain, recursionData: nat,
                         tickets: seq<nat>)
      requires Working(t, level - 1) && level < |c.plan| && ValidChain(c, chain)
      requires level == 0 ==> forall i | 0 <= i < |tickets| ::
        tickets[i] < if c.Active(0).permanent then |c.sites| else |Sites(c, t.emu.Now(), t.emu.flash[..], remaining)|
      requires forall i, j | 0 <= i < j < |tickets| :: tickets[i] < tickets[j]
      modifies t.Footprint()
      ensures Working(t, level - 1) && OuterKept(old(t.emu.saved), t.emu.saved, level)
      ensures t.emu.flash[..] == old(t.emu.flash[..])
      ensures !c.Active(level).permanent ==>
        t.newFaults ==
          old(t.newFaults) + Found(level, old(t.emu.Now()), old(t.emu.flash[..]), remaining, chain, tickets)
      ensures OneVerdict(c) ==>
        t.newFaults == old(t.newFaults) +
        FoundOf(level, old(t.emu.Now()), old(t.emu.flash[..]), remaining, chain, recursionData, tickets)
      ensures Extends(c, level, old(t.emu.Now()), old(t.emu.flash[..]), remaining, chain, old(t.newFaults), t.newFaults)
      decreases |c.plan| - level, 7
    {
      hide OuterKept, Nested, AllInside, Search, Visits, PermanentVisits, OneVerdict, Emulator.Ready;
      ghost var s, code, new0 := t.emu.Now(), t.emu.flash[..], t.newFaults;
      if c.Active(level).permanent {
        SimulatePermanentInstructionFault(t, level, remaining, chain, recursionData, tickets);
      } else {
        SimulateInstructionFault(t, level, remaining, chain, tickets);
        forall i | |new0| <= i < |t.newFaults|
          ensures Pushed(c, level, s, code, remaining, chain, t.newFaults[i])
        {
          var found := t.newFaults[i];
          assert found == Found(level, s, code, remaining, chain, tickets)[i - |new0|];
          if level == 0 {
            VisitsInSearch(c, level, s, code, remaining, chain, tickets, found);
          }
        }
      }
    }

    lemma {:induction false} FoundFrom(level: nat, s: State, code: seq<Byte>, budget: nat, chain: Chain,
                                       tickets: seq<nat>, all: seq<nat>)
      requires c.Valid() && level < |c.plan|
      requires all == if level == 0 then tickets else UpTo(|Sites(c, s, code, budget)|)
      requires forall i | 0 <= i < |all| :: all[i] < |Sites(c, s, code, budget)|
      ensures Walk(c, s, code, budget, Sites(c, s, code, budget), -1) == Position(s, budget)
      ensures Visits(c, level, s, code, budget, chain, []) == []
      ensures Found(level, s, code, budget, chain, tickets) == Visits(c, level, s, code, budget, chain, all)
    {
    }

    lemma {:induction false} WorkingBelow(t: ThreadContext, level: nat)
      requires Working(t, level)
      ensures Working(t, level - 1)
    {
      NestedShrink(t.emu.saved, level, level - 1, t.emu.ram[..], c.m.ramOffset);
    }
  }
}
