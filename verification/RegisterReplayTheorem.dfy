/** The search agrees with replaying its chains from the start, up to an exact condition on the clocks
    behind the faults. */
module RegisterReplayTheorem {
  import opened Processor
  import opened TraceWalk
  import opened RegisterSearch
  import opened RegisterBruteForce
  import opened RegisterReplay
  import RegisterSimulator
  import SearchSpec

  ghost predicate Before(faults: RegisterChain, time: nat) {
    forall f | f in faults :: f.time < time
  }

  ghost predicate UpToNow(faults: RegisterChain, time: nat) {
    forall f | f in faults :: f.time <= time
  }

  ghost predicate From(faults: RegisterChain, time: nat) {
    forall f | f in faults :: time <= f.time
  }

  // ---- The verdict of the replay, told along the search -----------------------------------------

  /** Where the search injects the next fault when it waits `n` clocks. */
  function Reached(c: RegisterCampaign, e: State, code: seq<Byte>, chain: RegisterChain, n: nat): State
    requires ValidChain(c, chain)
  {
    if n == 0 then e else Emulated(With(c, chain), e, code, NO_END, n).state
  }

  function Wait(e: State, f: RegisterFault): nat {
    if f.time > e.cpu.time then f.time - e.cpu.time else 0
  }

  /** Behind the last injection.  The replay executes the faulted instruction without testing for an end,
      tests behind it with the manipulated values still in place, takes back, executes the next
      instruction without testing again, and runs on as the emulator does. */
  predicate Ends(c: RegisterCampaign, y: State, code: seq<Byte>, faults: RegisterChain, budget: nat)
    requires ValidChain(c, faults)
  {
    var t := ExecuteStep(c.m, y, code);
    && budget > 1 && Fetchable(c.m, code, y.cpu.pc) && t.ret == Ok && Fetchable(c.m, code, t.state.cpu.pc)
    && if Stops(c.m, t.state) then c.m.evaluate(t.state, t.state.cpu.pc) == Exploitable
       else
         var u := ExecuteStep(With(c, faults), y, code).state;
         var v := ExecuteStep(c.m, u, code);
         Fetchable(c.m, code, u.cpu.pc) && v.ret == Ok && Judged(c.m, Run(c.m, v.state, code, NO_END, budget - 2))
  }

  /** What the replay makes of a chain the search found: `e` is the state behind the k-th injection.  It can
      only part from the search in the clock behind a fault, which it tests before taking back. */
  predicate Verdict(c: RegisterCampaign, e: State, code: seq<Byte>, found: RegisterChain, k: nat, budget: nat)
    requires ValidChain(c, found) && k <= |found|
    decreases |found| - k
  {
    if k == |found| then Ends(c, e, code, found, budget)
    else
      assert forall f | f in found[..k] :: f in found;
      var n := Wait(e, found[k]);
      var y := Faulted(c, Reached(c, e, code, found[..k], n), found[k]);
      if n == 0 then Verdict(c, y, code, found, k + 1, budget)
      else
        var t := ExecuteStep(c.m, e, code).state;
        && Fetchable(c.m, code, t.cpu.pc)
        && if Stops(c.m, t) then c.m.evaluate(t, t.cpu.pc) == Exploitable
           else Verdict(c, y, code, found, k + 1, if budget > n then budget - n else 0)
  }

  // ---- The hooks of the replay ------------------------------------------------------------------

  lemma {:induction false} InjectedNone(c: RegisterCampaign, cpu: Cpu, faults: RegisterChain, time: nat)
    requires ValidChain(c, faults) && forall f | f in faults :: f.time != time
    ensures Injected(c, cpu, faults, time) == (cpu, faults)
    decreases |faults|
  {
    if faults != [] {
      assert [faults[0]] + faults[1..] == faults;
      InjectedNone(c, cpu, faults[1..], time);
    }
  }

  lemma {:induction false} UndoneNone(c: RegisterCampaign, cpu: Cpu, faults: RegisterChain, time: nat)
    requires ValidChain(c, faults) && From(faults, time)
    ensures Undone(c, cpu, faults, time) == cpu
    decreases |faults|
  {
    if faults != [] {
      UndoneNone(c, cpu, faults[1..], time);
    }
  }

  lemma {:induction false} RevertsNothing(c: RegisterCampaign, cpu: Cpu, time: nat)
    ensures HooksOf(c, []) == [] && Reverting(c.kept, cpu, [], time) == cpu
  {
  }

  /** Taking back in the hook is what the search's hooks did behind the instruction. */
  lemma {:induction false} UndoneIsReverting(c: RegisterCampaign, cpu: Cpu, chain: RegisterChain, added: RegisterChain,
                                             time: nat)
    requires ValidChain(c, chain) && ValidChain(c, added) && From(added, time + 1)
    ensures ValidChain(c, chain + added)
    ensures Undone(c, cpu, chain + added, time + 1) == Reverting(c.kept, cpu, HooksOf(c, chain), time)
    decreases |chain|
  {
    hide WriteRegister, HooksOf;
    if chain == [] {
      assert chain + added == added;
      UndoneNone(c, cpu, added, time + 1);
      RevertsNothing(c, cpu, time);
    } else {
      var f, tail := chain[0], chain[1..];
      assert (chain + added)[1..] == tail + added;
      var due := c.library[f.model].transient && time == f.time;
      UndoneIsReverting(c, if due then WriteRegister(c.kept, cpu, f.reg, f.original) else cpu, tail, added, time);
      HooksFront(c, chain);
      assert (chain + added)[0] == f;
      if c.library[f.model].transient {
        assert ([f] + HooksOf(c, tail))[1..] == HooksOf(c, tail);
      } else {
        assert [] + HooksOf(c, tail) == HooksOf(c, tail);
      }
    }
  }

  function OwnHook(c: RegisterCampaign, f: RegisterFault): RegisterChain
    requires f.model < |c.library|
  {
    if c.library[f.model].transient then [f] else []
  }

  lemma {:induction false} HooksLast(c: RegisterCampaign, chain: RegisterChain, f: RegisterFault)
    requires ValidChain(c, chain + [f])
    ensures ValidChain(c, chain) && f.model < |c.library|
    ensures HooksOf(c, chain + [f]) == HooksOf(c, chain) + OwnHook(c, f)
  {
    assert f in chain + [f] && (chain + [f])[..|chain|] == chain;
    assert forall g | g in chain :: g in chain + [f];
  }

  lemma {:induction false} HooksFront(c: RegisterCampaign, chain: RegisterChain)
    requires ValidChain(c, chain) && chain != []
    ensures HooksOf(c, chain) ==
      (if c.library[chain[0].model].transient then [chain[0]] else []) + HooksOf(c, chain[1..])
    decreases |chain|
  {
    hide HooksOf;
    var n := |chain| - 1;
    var f, last := chain[0], chain[n];
    assert chain == chain[..n] + [last];
    HooksLast(c, chain[..n], last);
    if n == 0 {
      assert chain[..0] == [] && chain[1..] == [];
      NoHooksYet(c);
    } else {
      var middle := chain[1..n];
      HooksFront(c, chain[..n]);
      assert chain[..n][1..] == middle && chain[1..] == middle + [last];
      HooksLast(c, middle, last);
      assert OwnHook(c, f) + HooksOf(c, middle) + OwnHook(c, last) ==
        OwnHook(c, f) + (HooksOf(c, middle) + OwnHook(c, last));
    }
  }

  lemma {:induction false} NoHooksYet(c: RegisterCampaign)
    ensures HooksOf(c, []) == []
  {
  }

  // ---- One clock --------------------------------------------------------------------------------

  /** The search's clock is the replay's clock, with the hooks run behind it. */
  lemma {:induction false} HookedStep(c: RegisterCampaign, chain: RegisterChain, s: State, code: seq<Byte>)
    requires ValidChain(c, chain)
    ensures var t, u := ExecuteStep(c.m, s, code), ExecuteStep(With(c, chain), s, code);
      && t.ret == u.ret && t.ticked == u.ticked
      && (t.ticked ==> u.state == t.state.(cpu := Reverting(c.kept, t.state.cpu, HooksOf(c, chain), s.cpu.time)))
      && (Before(chain, s.cpu.time) ==> t == u)
  {
    hide StoredAll, Reverting;
    HooksInChain(c, chain);
    match c.m.exec(s, code)
    case Undecodable =>
    case Executed(cpu, stores, _) =>
      RegisterSimulator.SameStores(c.m, With(c, chain), s.ram, stores);
      RegisterSimulator.RevertingTime(c.kept, cpu, HooksOf(c, chain), s.cpu.time, s.cpu.time + 1);
      if Before(chain, s.cpu.time) {
        RevertingNothing(c.kept, cpu, HooksOf(c, chain), s.cpu.time);
      }
  }

  /** A clock at which no further fault is due. */
  lemma {:induction false} QuietClock(c: RegisterCampaign, s: State, code: seq<Byte>, faults: RegisterChain, j: nat,
                                      budget: nat)
    requires ValidChain(c, faults) && j <= |faults| && budget > 0
    requires forall f | f in faults[j..] :: f.time != s.cpu.time
    ensures Resumed(c, s, code, faults, j, budget, s.cpu.pc) <==>
      var t := ExecuteStep(c.m, s, code); t.ret == Ok && Replayed(c, t.state, code, faults, budget - 1)
  {
    hide Injected, ExecuteStep, Replayed;
    InjectedNone(c, s.cpu, faults[j..], s.cpu.time);
    assert faults[..j] + faults[j..] == faults;
    assert s.(cpu := s.cpu) == s;
  }

  /** Faults of earlier clocks are passed over. */
  lemma {:induction false} PastFaults(c: RegisterCampaign, s: State, code: seq<Byte>, chain: RegisterChain,
                                      added: RegisterChain, budget: nat, address: Word)
    requires ValidChain(c, chain + added) && Before(chain, s.cpu.time) && budget > 0
    ensures Resumed(c, s, code, chain + added, 0, budget, address) <==>
      Resumed(c, s, code, chain + added, |chain|, budget, address)
  {
    hide ExecuteStep, Replayed, Injected;
    var faults := chain + added;
    assert faults[0..] == faults && faults[|chain|..] == added;
    assert forall f | f in chain :: f in faults;
    InjectedPast(c, s.cpu, chain, added, s.cpu.time);
    var rest := Injected(c, s.cpu, added, s.cpu.time).1;
    assert faults[..0] + (chain + rest) == faults[..|chain|] + rest;
  }

  lemma {:induction false} InjectedPast(c: RegisterCampaign, cpu: Cpu, chain: RegisterChain, added: RegisterChain,
                                        time: nat)
    requires ValidChain(c, chain + added) && Before(chain, time)
    ensures ValidChain(c, added)
    ensures var r := Injected(c, cpu, added, time); Injected(c, cpu, chain + added, time) == (r.0, chain + r.1)
    decreases |chain|
  {
    hide WriteRegister, Refreshed;
    assert forall f | f in added :: f in chain + added;
    if chain == [] {
      assert chain + added == added;
      var r := Injected(c, cpu, added, time);
      assert chain + r.1 == r.1;
    } else {
      assert (chain + added)[1..] == chain[1..] + added;
      InjectedPast(c, cpu, chain[1..], added, time);
      var r := Injected(c, cpu, added, time);
      assert [chain[0]] + (chain[1..] + r.1) == chain + r.1;
    }
  }

  /** A fetch that succeeded is not repeated: which address it was does not matter. */
  lemma {:induction false} AnyAddress(c: RegisterCampaign, s: State, code: seq<Byte>, faults: RegisterChain, j: nat,
                                      budget: nat, a: Word, b: Word)
    requires ValidChain(c, faults) && j <= |faults| && budget > 0
    requires Fetchable(c.m, code, a) && Fetchable(c.m, code, b)
    ensures Resumed(c, s, code, faults, j, budget, a) <==> Resumed(c, s, code, faults, j, budget, b)
  {
    hide ExecuteStep, Replayed, Injected, Fetchable;
  }

  /** Behind a clock without new faults: the replay tests the state the instruction left, and goes on from
      the state the search's hooks left. */
  lemma {:induction false} NextFetch(c: RegisterCampaign, e: State, code: seq<Byte>, chain: RegisterChain,
                                     added: RegisterChain, budget: nat)
    requires KeepsEven(c.m) && ValidChain(c, chain + added)
    requires UpToNow(chain, e.cpu.time) && From(added, e.cpu.time + 1)
    requires ExecuteStep(c.m, e, code).ret == Ok && budget > 0
    ensures ValidChain(c, chain)
    ensures var t, u := ExecuteStep(c.m, e, code).state, ExecuteStep(With(c, chain), e, code).state;
      && u.cpu.time == t.cpu.time == e.cpu.time + 1
      && (Replayed(c, t, code, chain + added, budget) <==>
          Fetchable(c.m, code, t.cpu.pc) &&
          if Stops(c.m, t) then c.m.evaluate(t, t.cpu.pc) == Exploitable
          else Resumed(c, u, code, chain + added, |chain|, budget, t.cpu.pc))
  {
    hide Resumed, Undone, Reverting, HooksOf, Fetchable, Stops;
    assert forall f | f in chain :: f in chain + added;
    assert forall f | f in added :: f in chain + added;
    HookedStep(c, chain, e, code);
    var t, u := ExecuteStep(c.m, e, code).state, ExecuteStep(With(c, chain), e, code).state;
    StepEven(c.m, e, code);
    UndoneIsReverting(c, t.cpu, chain, added, e.cpu.time);
    PastFaults(c, u, code, chain, added, budget, t.cpu.pc);
  }

  lemma {:induction false} StepEven(m: Machine, s: State, code: seq<Byte>)
    requires KeepsEven(m) && ExecuteStep(m, s, code).ticked
    ensures ExecuteStep(m, s, code).state.cpu.pc % 2 == 0
  {
  }

  lemma {:induction false} OkIsStep(c: RegisterCampaign, chain: RegisterChain, s: State, code: seq<Byte>)
    requires ValidChain(c, chain) && Clock(With(c, chain), s, code).ticked
    ensures Clock(With(c, chain), s, code) == ExecuteStep(With(c, chain), s, code)
    ensures Fetchable(c.m, code, s.cpu.pc) && !Stops(c.m, s)
  {
    hide HooksOf, Reverting, StoredAll;
  }

  // ---- From one injection to the next -----------------------------------------------------------

  /** Clocks behind which nothing is taken back and before which nothing is due. */
  lemma {:induction false} QuietWalk(c: RegisterCampaign, e: State, code: seq<Byte>, chain: RegisterChain,
                                     added: RegisterChain, i: nat, budget: nat, a: Word)
    requires KeepsEven(c.m) && ValidChain(c, chain + added) && Fetchable(c.m, code, a)
    requires ValidChain(c, chain) && Before(chain, e.cpu.time) && From(added, e.cpu.time + i)
    requires Runs(With(c, chain), e, code, i) && i < budget
    requires Clock(With(c, chain), After(With(c, chain), e, code, i), code).ticked
    ensures var x := After(With(c, chain), e, code, i);
      Resumed(c, e, code, chain + added, |chain|, budget, a) <==>
        Resumed(c, x, code, chain + added, |chain|, budget - i, a)
    decreases i
  {
    hide Resumed, Replayed, With, KeepsEven, ExecuteStep, Fetchable;
    if i > 0 {
      QuietStep(c, e, code, chain, added, budget, a, i == 1);
      var u := Clock(With(c, chain), e, code).state;
      QuietWalk(c, u, code, chain, added, i - 1, budget - 1, a);
    }
  }

  lemma {:induction false} QuietStep(c: RegisterCampaign, e: State, code: seq<Byte>, chain: RegisterChain,
                                     added: RegisterChain, budget: nat, a: Word, last: bool)
    requires KeepsEven(c.m) && ValidChain(c, chain + added) && Fetchable(c.m, code, a) && budget > 1
    requires ValidChain(c, chain) && Before(chain, e.cpu.time) && From(added, e.cpu.time + 1)
    requires Clock(With(c, chain), e, code).ret == Ok
    requires Clock(With(c, chain), Clock(With(c, chain), e, code).state, code).ticked
    ensures var u := Clock(With(c, chain), e, code).state;
      Resumed(c, e, code, chain + added, |chain|, budget, a) <==>
        Resumed(c, u, code, chain + added, |chain|, budget - 1, a)
  {
    hide Resumed, Replayed, With, KeepsEven, ExecuteStep, Fetchable;
    assert (chain + added)[|chain|..] == added;
    assert forall f | f in chain :: f in chain + added;
    HookedStep(c, chain, e, code);
    OkIsStep(c, chain, e, code);
    AnyAddress(c, e, code, chain + added, |chain|, budget, a, e.cpu.pc);
    QuietClock(c, e, code, chain + added, |chain|, budget);
    NextFetch(c, e, code, chain, added, budget - 1);
    var u := Clock(With(c, chain), e, code).state;
    OkIsStep(c, chain, u, code);
    AnyAddress(c, u, code, chain + added, |chain|, budget - 1, u.cpu.pc, a);
  }

  /** From behind an injection to the next one, at a later clock. */
  lemma {:induction false} Walk(c: RegisterCampaign, e: State, code: seq<Byte>, chain: RegisterChain,
                                added: RegisterChain, i: nat, budget: nat, a: Word)
    requires KeepsEven(c.m) && ValidChain(c, chain + added) && Fetchable(c.m, code, a)
    requires ValidChain(c, chain) && UpToNow(chain, e.cpu.time) && From(added, e.cpu.time + i)
    requires 0 < i < budget && Runs(With(c, chain), e, code, i)
    requires Clock(With(c, chain), After(With(c, chain), e, code, i), code).ticked
    ensures var x, t := After(With(c, chain), e, code, i), ExecuteStep(c.m, e, code).state;
      Resumed(c, e, code, chain + added, |chain|, budget, a) <==>
        Fetchable(c.m, code, t.cpu.pc) &&
        if Stops(c.m, t) then c.m.evaluate(t, t.cpu.pc) == Exploitable
        else Resumed(c, x, code, chain + added, |chain|, budget - i, a)
  {
    hide Resumed, Replayed, With, KeepsEven, ExecuteStep, Fetchable, Stops;
    assert (chain + added)[|chain|..] == added;
    assert forall f | f in chain :: f in chain + added;
    HookedStep(c, chain, e, code);
    OkIsStep(c, chain, e, code);
    AnyAddress(c, e, code, chain + added, |chain|, budget, a, e.cpu.pc);
    QuietClock(c, e, code, chain + added, |chain|, budget);
    NextFetch(c, e, code, chain, added, budget - 1);
    var t, u := ExecuteStep(c.m, e, code).state, Clock(With(c, chain), e, code).state;
    QuietWalk(c, u, code, chain, added, i - 1, budget - 1, a);
    if Fetchable(c.m, code, t.cpu.pc) {
      AnyAddress(c, u, code, chain + added, |chain|, budget - 1, t.cpu.pc, a);
    }
  }

  /** The replay injects what the search injected. */
  lemma {:induction false} InjectHere(c: RegisterCampaign, level: nat, s: State, code: seq<Byte>, chain: RegisterChain,
                                      reg: nat, iteration: nat, rest: RegisterChain, budget: nat, a: Word)
    requires c.Valid() && level < |c.plan| && budget > 0
    requires ValidChain(c, chain + [Applied(c.Active(level), Blank(c, level, s, reg, iteration))] + rest)
    ensures var f := Applied(c.Active(level), Blank(c, level, s, reg, iteration));
      Resumed(c, s, code, chain + [f] + rest, |chain|, budget, a) <==>
      Resumed(c, Faulted(c, s, f), code, chain + [f] + rest, |chain| + 1, budget, a)
  {
    hide ExecuteStep, Replayed;
    var f := Applied(c.Active(level), Blank(c, level, s, reg, iteration));
    var faults := chain + [f] + rest;
    assert faults[|chain|..] == [f] + rest && ([f] + rest)[1..] == rest == faults[|chain| + 1..];
    assert forall g | g in rest :: g in faults;
    var more := Injected(c, Faulted(c, s, f).cpu, rest, s.cpu.time).1;
    assert faults[..|chain|] + ([f] + more) == faults[..|chain| + 1] + more;
  }

  // ---- Behind the last injection ----------------------------------------------------------------

  /** When all faults are long past, the replay is the emulator's run. */
  lemma {:induction false} PastReplay(c: RegisterCampaign, v: State, code: seq<Byte>, faults: RegisterChain,
                                      budget: nat)
    requires KeepsEven(c.m) && ValidChain(c, faults) && v.cpu.pc % 2 == 0
    requires forall f | f in faults :: f.time + 1 < v.cpu.time
    ensures Replayed(c, v, code, faults, budget) <==> Judged(c.m, Run(c.m, v, code, NO_END, budget))
    decreases budget
  {
    hide Undone, Injected, KeepsEven, ExecuteStep, Fetchable;
    if budget > 0 && Fetchable(c.m, code, v.cpu.pc) && !Stops(c.m, v) {
      UndonePast(c, v.cpu, faults, v.cpu.time);
      assert v.(cpu := v.cpu) == v;
      assert faults[0..] == faults;
      QuietClock(c, v, code, faults, 0, budget);
      var t := ExecuteStep(c.m, v, code);
      if t.ret == Ok {
        StepEven(c.m, v, code);
        PastReplay(c, t.state, code, faults, budget - 1);
      }
    }
  }

  lemma {:induction false} UndonePast(c: RegisterCampaign, cpu: Cpu, faults: RegisterChain, time: nat)
    requires ValidChain(c, faults) && forall f | f in faults :: f.time + 1 < time
    ensures Undone(c, cpu, faults, time) == cpu
    decreases |faults|
  {
    if faults != [] {
      UndonePast(c, cpu, faults[1..], time);
    }
  }

  lemma {:induction false} EndsIs(c: RegisterCampaign, y: State, code: seq<Byte>, faults: RegisterChain, budget: nat,
                                  a: Word)
    requires KeepsEven(c.m) && ValidChain(c, faults) && UpToNow(faults, y.cpu.time) && budget > 0
    requires Fetchable(c.m, code, a)
    requires KeepsEven(With(c, faults))
    ensures Resumed(c, y, code, faults, |faults|, budget, a) <==> Ends(c, y, code, faults, budget)
  {
    hide Replayed, KeepsEven, ExecuteStep, Fetchable, With, Stops, Run;
    assert faults[|faults|..] == [] && faults[..|faults|] + [] == faults && faults + [] == faults;
    assert y.(cpu := y.cpu) == y;
    var t := ExecuteStep(c.m, y, code);
    HookedStep(c, faults, y, code);
    if t.ret == Ok && budget > 1 {
      NextFetch(c, y, code, faults, [], budget - 1);
      var u := ExecuteStep(With(c, faults), y, code).state;
      assert u.(cpu := u.cpu) == u;
      var v := ExecuteStep(c.m, u, code);
      if v.ret == Ok {
        StepEven(c.m, u, code);
        PastReplay(c, v.state, code, faults, budget - 2);
      }
    }
    NoBudget(c, t.state, code, faults);
  }

  lemma {:induction false} NoBudget(c: RegisterCampaign, s: State, code: seq<Byte>, faults: RegisterChain)
    requires ValidChain(c, faults)
    ensures !Replayed(c, s, code, faults, 0)
  {
  }

  // ---- The search -------------------------------------------------------------------------------

  /** What one injection of the search looks like. */
  lemma {:induction false} FoundAt(c: RegisterCampaign, level: nat, e: State, code: seq<Byte>, budget: nat,
                                   chain: RegisterChain, found: RegisterChain)
      returns (i: nat, reg: nat, iteration: nat)
    requires c.Valid() && level < |c.plan| && ValidChain(c, chain)
    requires found in Search(c, level, e, code, budget, chain)
    ensures var m := With(c, chain);
      i < budget && Runs(m, Aligned(e), code, i) && Clock(m, After(m, Aligned(e), code, i), code).ticked
    ensures var x := Stand(With(c, chain), e, code, i);
      !Processed(c, x, chain, reg) && found in Trial(c, level, x, code, budget - i, chain, reg, iteration)
  {
    hide Trial, Entries, EntryAt, Clock, Runs, After, With, Processed, Blank;
    var m := With(c, chain);
    i := FromVisits(c, level, e, code, budget, chain, SearchSpec.UpTo(|Trace(c, e, code, budget, chain)|), found);
    EntryIs(c, m, Aligned(e), code, budget, i);
    var x := Stand(m, e, code, i);
    reg := FromVisit(c, level, x, code, budget - i, chain, Trace(c, e, code, budget, chain)[i], found);
    iteration := FromTrials(c, level, x, code, budget - i, chain, reg,
                            c.Active(level).iterations(Blank(c, level, x, reg, 0)), found);
  }

  /** What is found at a level starts with the faults injected before it, and the level's own. */
  lemma {:induction false} TrialExtends(c: RegisterCampaign, level: nat, s: State, code: seq<Byte>, remaining: nat,
                                        chain: RegisterChain, reg: nat, iteration: nat, found: RegisterChain)
    requires c.Valid() && level < |c.plan| && ValidChain(c, chain)
    requires found in Trial(c, level, s, code, remaining, chain, reg, iteration)
    ensures var f := Applied(c.Active(level), Blank(c, level, s, reg, iteration)); chain + [f] <= found && f in found
    ensures var f := Applied(c.Active(level), Blank(c, level, s, reg, iteration));
      && ValidChain(c, chain + [f]) && !Skipped(c, level, s, chain, Blank(c, level, s, reg, iteration))
      && ((found == chain + [f] &&
           Judged(c.m, Emulated(With(c, chain + [f]), Faulted(c, s, f), code, NO_END, remaining))) ||
          (level + 1 < |c.plan| && remaining > 0 &&
           found in Search(c, level + 1, Faulted(c, s, f), code, remaining, chain + [f])))
    decreases |c.plan| - level, 0
  {
    hide Skipped, With, Run, Search;
    var f := Applied(c.Active(level), Blank(c, level, s, reg, iteration));
    if !(found == chain + [f] &&
         Judged(c.m, Emulated(With(c, chain + [f]), Faulted(c, s, f), code, NO_END, remaining))) {
      SearchExtends(c, level + 1, Faulted(c, s, f), code, remaining, chain + [f], found);
    }
    assert (chain + [f])[|chain|] == f;
  }

  lemma {:induction false} SearchExtends(c: RegisterCampaign, level: nat, s: State, code: seq<Byte>, budget: nat,
                                         chain: RegisterChain, found: RegisterChain)
    requires c.Valid() && level < |c.plan| && ValidChain(c, chain) && found in Search(c, level, s, code, budget, chain)
    ensures chain <= found
    decreases |c.plan| - level, 1
  {
    hide Trial, Entries, EntryAt, Clock, Runs, After, With, Processed, Blank, Applied;
    var m := With(c, chain);
    var i := FromVisits(c, level, s, code, budget, chain, SearchSpec.UpTo(|Trace(c, s, code, budget, chain)|), found);
    EntryIs(c, m, Aligned(s), code, budget, i);
    var x := Stand(m, s, code, i);
    var reg := FromVisit(c, level, x, code, budget - i, chain, Trace(c, s, code, budget, chain)[i], found);
    var iteration := FromTrials(c, level, x, code, budget - i, chain, reg,
                                c.Active(level).iterations(Blank(c, level, x, reg, 0)), found);
    TrialExtends(c, level, x, code, budget - i, chain, reg, iteration, found);
  }

  // ---- Odd addresses ----------------------------------------------------------------------------

  /** An odd program counter holds what a fault just put there. */
  ghost predicate OddByFault(s: State, chain: RegisterChain) {
    s.cpu.pc % 2 == 0 || exists f | f in chain :: f.reg == PC && f.time == s.cpu.time && f.manipulated % 2 != 0
  }

  /** Only faults of the last clock may write an odd address: emulation would align it, the replay does not. */
  ghost predicate EvenWrites(found: RegisterChain) {
    forall f | f in found && f.reg == PC && f.time < found[|found| - 1].time :: f.manipulated % 2 == 0
  }

  lemma {:induction false} StandOdd(c: RegisterCampaign, e: State, code: seq<Byte>, chain: RegisterChain, i: nat)
    requires KeepsEven(c.m) && ValidChain(c, chain) && EvenCounter(e, chain) && OddByFault(e, chain)
    requires Runs(With(c, chain), Aligned(e), code, i)
    ensures OddByFault(Stand(With(c, chain), e, code, i), chain)
  {
    hide With, Clock;
    WithKeepsEven(c, e, chain);
    EvenAfter(With(c, chain), Aligned(e), code, i);
  }

  lemma {:induction false} FaultedOdd(c: RegisterCampaign, x: State, chain: RegisterChain, f: RegisterFault)
    requires OddByFault(x, chain) && f.time == x.cpu.time
    ensures OddByFault(Faulted(c, x, f), chain + [f])
  {
    assert f in chain + [f];
    if f.reg != PC && x.cpu.pc % 2 != 0 {
      var g :| g in chain && g.reg == PC && g.time == x.cpu.time && g.manipulated % 2 != 0;
      assert g in chain + [f];
    }
  }

  // ---- The search agrees with the replay --------------------------------------------------------

  /** Faults are found in the order of their times. */
  lemma {:induction false} FoundInOrder(c: RegisterCampaign, level: nat, e: State, code: seq<Byte>, budget: nat,
                                        chain: RegisterChain, found: RegisterChain)
    requires c.Valid() && level < |c.plan| && ValidChain(c, chain) && found in Search(c, level, e, code, budget, chain)
    ensures ValidChain(c, found) && |chain| < |found| && chain <= found && From(found[|chain|..], e.cpu.time)
    ensures found[|chain|].time <= found[|found| - 1].time
    decreases |c.plan| - level
  {
    hide Trial, Search, Clock, Runs, After, With, Processed, Skipped, Run;
    var i, reg, iteration := FoundAt(c, level, e, code, budget, chain, found);
    var x := Stand(With(c, chain), e, code, i);
    var f := Applied(c.Active(level), Blank(c, level, x, reg, iteration));
    TrialExtends(c, level, x, code, budget - i, chain, reg, iteration, found);
    StandTime(With(c, chain), e, code, i);
    assert found[|chain|] == (chain + [f])[|chain|] == f;
    if found != chain + [f] {
      FoundInOrder(c, level + 1, Faulted(c, x, f), code, budget - i, chain + [f], found);
      assert found[|chain|..] == [f] + found[|chain| + 1..];
    } else {
      assert found[|chain|..] == [f];
    }
  }

  lemma {:induction false} StandTime(m: Machine, e: State, code: seq<Byte>, i: nat)
    requires Runs(m, Aligned(e), code, i)
    ensures Stand(m, e, code, i).cpu.time == e.cpu.time + i
  {
  }

  /** What the search guarantees at a level, with the faults of `chain` injected. */
  ghost predicate Level(c: RegisterCampaign, level: nat, e: State, chain: RegisterChain, found: RegisterChain) {
    && c.Valid() && KeepsEven(c.m) && level < |c.plan| && ValidChain(c, chain)
    && EvenCounter(e, chain) && OddByFault(e, chain) && UpToNow(chain, e.cpu.time) && EvenWrites(found)
  }

  /** The search's next injection keeps what it relies on. */
  lemma {:induction false} NextLevel(c: RegisterCampaign, level: nat, e: State, code: seq<Byte>, chain: RegisterChain,
                                     found: RegisterChain, i: nat, reg: nat, iteration: nat)
    requires Level(c, level, e, chain, found) && Runs(With(c, chain), Aligned(e), code, i)
    requires !Processed(c, Stand(With(c, chain), e, code, i), chain, reg)
    ensures var x := Stand(With(c, chain), e, code, i);
      var f := Applied(c.Active(level), Blank(c, level, x, reg, iteration));
      var y := Faulted(c, x, f);
      && f.time == x.cpu.time == y.cpu.time == e.cpu.time + i
      && ValidChain(c, chain + [f]) && EvenCounter(y, chain + [f]) && OddByFault(y, chain + [f]) &&
         UpToNow(chain + [f], y.cpu.time)
      && KeepsEven(With(c, chain)) && KeepsEven(With(c, chain + [f]))
  {
    hide With, Processed, EvenCounter, OddByFault, KeepsEven, Clock, Faulted;
    var x := Stand(With(c, chain), e, code, i);
    StandTime(With(c, chain), e, code, i);
    StandEven(c, e, code, chain, i);
    StandOdd(c, e, code, chain, i);
    FaultedEven(c, level, x, chain, reg, iteration);
    var f := Applied(c.Active(level), Blank(c, level, x, reg, iteration));
    FaultedOdd(c, x, chain, f);
    FaultedTime(c, x, f);
    WithKeepsEven(c, e, chain);
    WithKeepsEven(c, Faulted(c, x, f), chain + [f]);
  }

  lemma {:induction false} FaultedTime(c: RegisterCampaign, x: State, f: RegisterFault)
    ensures Faulted(c, x, f).cpu.time == x.cpu.time && Faulted(c, x, f).ram == x.ram
  {
  }

  /** A wait between injections starts at an even address. */
  lemma {:induction false} EvenWait(e: State, chain: RegisterChain, found: RegisterChain)
    requires OddByFault(e, chain) && EvenWrites(found) && chain <= found && |chain| < |found|
    requires e.cpu.time < found[|chain|].time <= found[|found| - 1].time
    ensures e.cpu.pc % 2 == 0
  {
    assert forall f | f in chain :: f in found;
  }

  /** Where the search stands, by its trace and by emulating. */
  lemma {:induction false} StandReached(c: RegisterCampaign, e: State, code: seq<Byte>, chain: RegisterChain, i: nat)
    requires ValidChain(c, chain) && KeepsEven(With(c, chain)) && Runs(With(c, chain), Aligned(e), code, i)
    ensures Stand(With(c, chain), e, code, i) == Reached(c, e, code, chain, i)
    ensures i > 0 && e.cpu.pc % 2 == 0 ==> Aligned(e) == e
  {
    hide With, Run, Clock;
    RunByCount(With(c, chain), Aligned(e), code, i);
  }

  /** From a level on, the rest of the replay of a found chain has the verdict told along the search. */
  lemma {:induction false} SearchVerdict(c: RegisterCampaign, level: nat, e: State, code: seq<Byte>, budget: nat,
                                         chain: RegisterChain, found: RegisterChain, a: Word)
    requires Level(c, level, e, chain, found) && found in Search(c, level, e, code, budget, chain)
    requires Fetchable(c.m, code, a)
    ensures ValidChain(c, found) && |chain| < |found| && chain <= found && From(found[|chain|..], e.cpu.time)
    ensures budget > 0
    ensures Resumed(c, e, code, found, |chain|, budget, a) <==> Verdict(c, e, code, found, |chain|, budget)
    decreases |c.plan| - level
  {
    hide Resumed, Search, With, Processed, Skipped, KeepsEven, Clock, Run, Verdict, Fetchable, Runs, After, EvenWrites,
      OddByFault, EvenCounter, Ends, Faulted, ExecuteStep, Trial, Reached, Blank, Applied, HooksOf, Aligned;
    FoundInOrder(c, level, e, code, budget, chain, found);
    var i, reg, iteration := FoundAt(c, level, e, code, budget, chain, found);
    var m := With(c, chain);
    var x := Stand(m, e, code, i);
    var f := Applied(c.Active(level), Blank(c, level, x, reg, iteration));
    var y := Faulted(c, x, f);
    NextLevel(c, level, e, code, chain, found, i, reg, iteration);
    TrialExtends(c, level, x, code, budget - i, chain, reg, iteration, found);
    assert found[|chain|] == (chain + [f])[|chain|] == f;
    var rest := found[|chain| + 1..];
    assert found == chain + [f] + rest == chain + ([f] + rest);
    if found == chain + [f] && Judged(c.m, Emulated(With(c, chain + [f]), y, code, NO_END, budget - i)) {
      EndsIs(c, y, code, found, budget - i, a);
      VerdictEnd(c, y, code, found, budget - i);
    } else {
      SearchVerdict(c, level + 1, y, code, budget - i, chain + [f], found, a);
    }
    InjectHere(c, level, x, code, chain, reg, iteration, rest, budget - i, a);
    StandReached(c, e, code, chain, i);
    VerdictStep(c, e, code, found, |chain|, budget, i, chain);
    if i > 0 {
      EvenWait(e, chain, found);
      assert From([f] + rest, e.cpu.time + i);
      Walk(c, e, code, chain, [f] + rest, i, budget, a);
    }
  }

  lemma {:induction false} VerdictEnd(c: RegisterCampaign, y: State, code: seq<Byte>, found: RegisterChain, budget: nat)
    requires ValidChain(c, found)
    ensures Verdict(c, y, code, found, |found|, budget) == Ends(c, y, code, found, budget)
  {
  }

  lemma {:induction false} VerdictStep(c: RegisterCampaign, e: State, code: seq<Byte>, found: RegisterChain, k: nat,
                                       budget: nat, n: nat, chain: RegisterChain)
    requires ValidChain(c, found) && k < |found| && chain == found[..k] && found[k].time == e.cpu.time + n && n < budget
    ensures ValidChain(c, chain)
    ensures var y, t := Faulted(c, Reached(c, e, code, chain, n), found[k]), ExecuteStep(c.m, e, code).state;
      && (n == 0 ==> Verdict(c, e, code, found, k, budget) == Verdict(c, y, code, found, k + 1, budget))
      && (n > 0 && !Fetchable(c.m, code, t.cpu.pc) ==> !Verdict(c, e, code, found, k, budget))
      && (n > 0 && Fetchable(c.m, code, t.cpu.pc) ==>
          Verdict(c, e, code, found, k, budget) ==
            if Stops(c.m, t) then c.m.evaluate(t, t.cpu.pc) == Exploitable
            else Verdict(c, y, code, found, k + 1, budget - n))
  {
    hide Ends, ExecuteStep, Fetchable, Stops, Reached, Faulted;
    assert forall f | f in found[..k] :: f in found;
  }

  lemma {:induction false} StartClock(c: RegisterCampaign, chain: RegisterChain, e: State, code: seq<Byte>, i: nat)
    requires ValidChain(c, chain) && Runs(With(c, chain), e, code, i)
    requires Clock(With(c, chain), After(With(c, chain), e, code, i), code).ticked
    ensures Fetchable(c.m, code, e.cpu.pc) && !Stops(c.m, e)
  {
    hide With, ExecuteStep;
    OkIsStep(c, chain, e, code);
  }

  /** A chain the search finds is confirmed by replaying it from the start with the same budget if and only
      if the clocks behind its faults have the verdict told along the search. */
  lemma {:induction false} SearchReplaysIff(c: RegisterCampaign, s: State, code: seq<Byte>, budget: nat,
                                            found: RegisterChain)
    requires c.Valid() && KeepsEven(c.m) && |c.plan| > 0 && s.cpu.pc % 2 == 0
    requires found in Search(c, 0, s, code, budget, []) && EvenWrites(found)
    ensures ValidChain(c, found)
    ensures Replayed(c, Aligned(s), code, found, budget) <==> Verdict(c, s, code, found, 0, budget)
  {
    hide Resumed, Search, Verdict, With, Clock, Processed, Trial, Fetchable, Stops;
    var i, reg, iteration := FoundAt(c, 0, s, code, budget, [], found);
    assert Aligned(s) == s;
    StartClock(c, [], s, code, i);
    SearchVerdict(c, 0, s, code, budget, [], found, s.cpu.pc);
    assert found[0..] == found;
    UndoneNone(c, s.cpu, found, s.cpu.time);
    assert s.(cpu := s.cpu) == s;
  }
}
