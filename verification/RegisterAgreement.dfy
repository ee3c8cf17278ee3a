/** When the register search and the replay agree, by conditions that can be tested. */
module RegisterAgreement {
  import opened Processor
  import opened TraceWalk
  import opened RegisterSearch
  import opened RegisterReplay
  import opened RegisterReplayTheorem

  ghost predicate NoCounterFault(faults: RegisterChain) {
    forall f | f in faults :: f.reg != PC
  }

  /** Whether the exploitability model says to continue depends on memory, address and time only. */
  ghost predicate StopsAlike(m: Machine) {
    forall s: State, t: State, a: Word | s.ram == t.ram && s.cpu.pc == t.cpu.pc && s.cpu.time == t.cpu.time ::
      m.evaluate(s, a) == Continue <==> m.evaluate(t, a) == Continue
  }

  /** The exploitability model looks at memory, address and time, not at registers. */
  ghost predicate JudgesMemory(m: Machine) {
    forall s: State, t: State, a: Word | s.ram == t.ram && s.cpu.pc == t.cpu.pc && s.cpu.time == t.cpu.time ::
      m.evaluate(s, a) == m.evaluate(t, a)
  }

  // ---- The state behind the last injection ------------------------------------------------------

  /** Behind the last injection of a chain, from behind the k-th. */
  function Last(c: RegisterCampaign, e: State, code: seq<Byte>, found: RegisterChain, k: nat): State
    requires ValidChain(c, found) && k <= |found|
    decreases |found| - k
  {
    if k == |found| then e
    else
      assert forall f | f in found[..k] :: f in found;
      Last(c, Faulted(c, Reached(c, e, code, found[..k], Wait(e, found[k])), found[k]), code, found, k + 1)
  }

  /** In the clocks behind all but the last faults, the instruction goes on to a place that can be fetched
      and is no stop. */
  predicate GoesOn(c: RegisterCampaign, e: State, code: seq<Byte>, found: RegisterChain, k: nat)
    requires ValidChain(c, found) && k <= |found|
    decreases |found| - k
  {
    k == |found| ||
    (assert forall f | f in found[..k] :: f in found;
     var n := Wait(e, found[k]);
     var t := ExecuteStep(c.m, e, code).state;
     && (n > 0 ==> Fetchable(c.m, code, t.cpu.pc) && !Stops(c.m, t))
     && GoesOn(c, Faulted(c, Reached(c, e, code, found[..k], n), found[k]), code, found, k + 1))
  }

  lemma {:induction false} LastStep(c: RegisterCampaign, e: State, code: seq<Byte>, found: RegisterChain, k: nat,
                                    n: nat, chain: RegisterChain)
    requires ValidChain(c, found) && k < |found| && chain == found[..k] && found[k].time == e.cpu.time + n
    ensures ValidChain(c, chain)
    ensures var y, t := Faulted(c, Reached(c, e, code, chain, n), found[k]), ExecuteStep(c.m, e, code).state;
      && Last(c, e, code, found, k) == Last(c, y, code, found, k + 1)
      && (GoesOn(c, e, code, found, k) <==>
          (n > 0 ==> Fetchable(c.m, code, t.cpu.pc) && !Stops(c.m, t)) && GoesOn(c, y, code, found, k + 1))
  {
    hide ExecuteStep, Fetchable, Stops, Reached, Faulted;
    assert forall f | f in found[..k] :: f in found;
  }

  lemma {:induction false} LastEnd(c: RegisterCampaign, y: State, code: seq<Byte>, found: RegisterChain)
    requires ValidChain(c, found)
    ensures Last(c, y, code, found, |found|) == y && GoesOn(c, y, code, found, |found|)
  {
  }

  // ---- What the search knows of it --------------------------------------------------------------

  /** The search's last run, and the verdict of the replay brought down to what follows it. */
  ghost predicate LastRun(c: RegisterCampaign, e: State, code: seq<Byte>, found: RegisterChain, k: nat, budget: nat)
    requires ValidChain(c, found) && k <= |found|
  {
    var y := Last(c, e, code, found, k);
    && e.cpu.time <= y.cpu.time < e.cpu.time + budget
    && UpToNow(found, y.cpu.time) && EvenCounter(y, found) && OddByFault(y, found)
    && var left := budget - (y.cpu.time - e.cpu.time);
       && Judged(c.m, Emulated(With(c, found), y, code, NO_END, left))
       && (GoesOn(c, e, code, found, k) ==> (Verdict(c, e, code, found, k, budget) <==> Ends(c, y, code, found, left)))
  }

  lemma {:induction false} SearchEnds(c: RegisterCampaign, level: nat, e: State, code: seq<Byte>, budget: nat,
                                      chain: RegisterChain, found: RegisterChain)
    requires Level(c, level, e, chain, found) && found in Search(c, level, e, code, budget, chain)
    ensures ValidChain(c, found) && |chain| < |found| && chain <= found && LastRun(c, e, code, found, |chain|, budget)
    decreases |c.plan| - level
  {
    hide Search, With, Processed, Skipped, KeepsEven, Clock, Run, Verdict, Fetchable, Runs, After, EvenWrites,
      OddByFault, EvenCounter, Ends,
      Faulted, ExecuteStep, Last, GoesOn, Judged;
    FoundInOrder(c, level, e, code, budget, chain, found);
    var i, reg, iteration := FoundAt(c, level, e, code, budget, chain, found);
    var x := Stand(With(c, chain), e, code, i);
    var f := Applied(c.Active(level), Blank(c, level, x, reg, iteration));
    var y := Faulted(c, x, f);
    NextLevel(c, level, e, code, chain, found, i, reg, iteration);
    TrialExtends(c, level, x, code, budget - i, chain, reg, iteration, found);
    assert found[|chain|] == (chain + [f])[|chain|] == f;
    StandReached(c, e, code, chain, i);
    if found == chain + [f] && Judged(c.m, Emulated(With(c, chain + [f]), y, code, NO_END, budget - i)) {
      VerdictEnd(c, y, code, found, budget - i);
      LastEnd(c, y, code, found);
    } else {
      SearchEnds(c, level + 1, y, code, budget - i, chain + [f], found);
    }
    LastStep(c, e, code, found, |chain|, i, chain);
    VerdictStep(c, e, code, found, |chain|, budget, i, chain);
  }

  /** The replay and the search's last run: when the search does not end at a stop that the replay passes
      untested, the test behind the faulted instruction decides. */
  lemma {:induction false} LastTest(c: RegisterCampaign, y: State, code: seq<Byte>, found: RegisterChain, left: nat)
    requires KeepsEven(c.m) && ValidChain(c, found) && UpToNow(found, y.cpu.time) && EvenCounter(y, found)
    requires y.cpu.pc % 2 == 0
    requires Judged(c.m, Emulated(With(c, found), y, code, NO_END, left)) && !Stops(c.m, y)
    ensures var t, u := ExecuteStep(c.m, y, code).state, ExecuteStep(With(c, found), y, code).state;
      && Fetchable(c.m, code, u.cpu.pc) && (Stops(c.m, u) ==> c.m.evaluate(u, u.cpu.pc) == Exploitable)
      && u.ram == t.ram && u.cpu.time == t.cpu.time && (NoCounterFault(found) ==> u.cpu.pc == t.cpu.pc)
      && ((Stops(c.m, u) ==> Stops(c.m, t)) ==>
          (Ends(c, y, code, found, left) <==>
           Fetchable(c.m, code, t.cpu.pc) && (Stops(c.m, t) ==> c.m.evaluate(t, t.cpu.pc) == Exploitable)))
  {
    hide ExecuteStep, With, KeepsEven, EvenCounter, Fetchable, Reverting;
    var m := With(c, found);
    WithKeepsEven(c, y, found);
    HookedStep(c, found, y, code);
    OneClock(c, found, y, code, left);
    KeepsPlace(c, found, y, code);
    var u := ExecuteStep(m, y, code).state;
    StepEven(m, y, code);
    OneClock(c, found, u, code, left - 1);
    if !Stops(c.m, u) {
      HookedStep(c, found, u, code);
      var v := ExecuteStep(m, u, code).state;
      StepEven(m, u, code);
      RunPast(c, found, v, code, left - 2);
    }
  }

  lemma {:induction false} OneClock(c: RegisterCampaign, chain: RegisterChain, s: State, code: seq<Byte>, budget: nat)
    requires ValidChain(c, chain) && Judged(c.m, Run(With(c, chain), s, code, NO_END, budget)) && s.cpu.pc % 2 == 0
    ensures budget > 0 && Fetchable(c.m, code, s.cpu.pc)
    ensures Stops(c.m, s) ==> c.m.evaluate(s, s.cpu.pc) == Exploitable
    ensures !Stops(c.m, s) ==>
      var t := ExecuteStep(With(c, chain), s, code);
      t.ret == Ok && Judged(c.m, Run(With(c, chain), t.state, code, NO_END, budget - 1))
  {
    hide HooksOf, Reverting, ExecuteStep;
  }

  lemma {:induction false} KeepsPlace(c: RegisterCampaign, chain: RegisterChain, s: State, code: seq<Byte>)
    requires ValidChain(c, chain)
    ensures var t, u := ExecuteStep(c.m, s, code).state, ExecuteStep(With(c, chain), s, code).state;
      u.ram == t.ram && u.cpu.time == t.cpu.time && (NoCounterFault(chain) ==> u.cpu.pc == t.cpu.pc)
  {
    hide Reverting, HooksOf, With;
    HookedStep(c, chain, s, code);
    HooksInChain(c, chain);
    if NoCounterFault(chain) {
      RevertingKeeps(c.kept, ExecuteStep(c.m, s, code).state.cpu, HooksOf(c, chain), s.cpu.time);
    }
    RevertingKeepsTime(c.kept, ExecuteStep(c.m, s, code).state.cpu, HooksOf(c, chain), s.cpu.time);
  }

  /** Writes to other registers leave the program counter. */
  lemma {:induction false} RevertingKeeps(kept: Word -> Word, cpu: Cpu, hooks: RegisterChain, time: nat)
    requires NoCounterFault(hooks)
    ensures Reverting(kept, cpu, hooks, time).pc == cpu.pc
    decreases |hooks|
  {
    if hooks != [] {
      var f := hooks[0];
      RevertingKeeps(kept, if f.time == time then WriteRegister(kept, cpu, f.reg, f.original) else cpu, hooks[1..],
                     time);
    }
  }

  lemma {:induction false} RevertingKeepsTime(kept: Word -> Word, cpu: Cpu, hooks: RegisterChain, time: nat)
    ensures Reverting(kept, cpu, hooks, time).time == cpu.time
    decreases |hooks|
  {
    if hooks != [] {
      var f := hooks[0];
      RevertingKeepsTime(kept, if f.time == time then WriteRegister(kept, cpu, f.reg, f.original) else cpu, hooks[1..],
                         time);
    }
  }

  /** Hooks of earlier clocks do not act any more. */
  lemma {:induction false} RunPast(c: RegisterCampaign, chain: RegisterChain, s: State, code: seq<Byte>, budget: nat)
    requires ValidChain(c, chain) && Before(chain, s.cpu.time)
    ensures Judged(c.m, Run(With(c, chain), s, code, NO_END, budget)) <==>
      Judged(c.m, Run(c.m, s, code, NO_END, budget))
    decreases budget
  {
    hide HooksOf, Reverting, ExecuteStep;
    if budget > 0 && s.cpu.pc != NO_END && Fetchable(c.m, code, s.cpu.pc) && !Stops(c.m, s) {
      HookedStep(c, chain, s, code);
      var t := ExecuteStep(c.m, s, code);
      if t.ret == Ok {
        RunPast(c, chain, t.state, code, budget - 1);
      }
    }
  }

  // ---- Faults of general registers --------------------------------------------------------------

  /** Where registers other than the program counter are faulted, every test but the last passes. */
  lemma {:induction false} SearchGoesOn(c: RegisterCampaign, level: nat, e: State, code: seq<Byte>, budget: nat,
                                        chain: RegisterChain, found: RegisterChain)
    requires Level(c, level, e, chain, found) && StopsAlike(c.m) && NoCounterFault(found) && e.cpu.pc % 2 == 0
    requires found in Search(c, level, e, code, budget, chain)
    ensures ValidChain(c, found) && |chain| < |found| && chain <= found && GoesOn(c, e, code, found, |chain|)
    ensures var y := Last(c, e, code, found, |chain|); y.cpu.pc % 2 == 0 && !Stops(c.m, y)
    decreases |c.plan| - level
  {
    hide Search, With, Processed, Skipped, KeepsEven, Clock, Run, Fetchable, Runs, After, EvenWrites, OddByFault,
      EvenCounter,
      Faulted, ExecuteStep, Last, GoesOn, Judged, Stops, StopsAlike;
    FoundInOrder(c, level, e, code, budget, chain, found);
    var i, reg, iteration := FoundAt(c, level, e, code, budget, chain, found);
    var m := With(c, chain);
    assert Aligned(e) == e;
    var x := Stand(m, e, code, i);
    StandIsAfter(m, e, code, i);
    var f := Applied(c.Active(level), Blank(c, level, x, reg, iteration));
    var y := Faulted(c, x, f);
    NextLevel(c, level, e, code, chain, found, i, reg, iteration);
    TrialExtends(c, level, x, code, budget - i, chain, reg, iteration, found);
    assert found[|chain|] == (chain + [f])[|chain|] == f;
    StandReached(c, e, code, chain, i);
    StandsClear(c, chain, e, code, i);
    OtherKept(c, x, f);
    StopSame(c.m, x, y);
    if found == chain + [f] && Judged(c.m, Emulated(With(c, chain + [f]), y, code, NO_END, budget - i)) {
      LastEnd(c, y, code, found);
    } else {
      SearchGoesOn(c, level + 1, y, code, budget - i, chain + [f], found);
    }
    if i > 0 {
      assert forall g | g in chain :: g in found;
      KeepsPlace(c, chain, e, code);
      StopSame(c.m, ExecuteStep(c.m, e, code).state, ExecuteStep(m, e, code).state);
    }
    LastStep(c, e, code, found, |chain|, i, chain);
  }

  lemma {:induction false} StandIsAfter(m: Machine, e: State, code: seq<Byte>, i: nat)
    requires e.cpu.pc % 2 == 0 && Runs(m, e, code, i)
    ensures Aligned(e) == e && Stand(m, e, code, i) == After(m, e, code, i)
  {
  }

  lemma {:induction false} OtherKept(c: RegisterCampaign, s: State, f: RegisterFault)
    requires f.reg != PC
    ensures var x := Faulted(c, s, f); x.ram == s.ram && x.cpu.pc == s.cpu.pc && x.cpu.time == s.cpu.time
  {
  }

  lemma {:induction false} StopSame(m: Machine, s: State, t: State)
    requires StopsAlike(m) && s.ram == t.ram && s.cpu.pc == t.cpu.pc && s.cpu.time == t.cpu.time
    ensures Stops(m, s) == Stops(m, t)
  {
  }

  /** The instruction the walk stands at and the one behind where it started can be fetched and are no stops. */
  lemma {:induction false} StandsClear(c: RegisterCampaign, chain: RegisterChain, e: State, code: seq<Byte>, i: nat)
    requires ValidChain(c, chain) && KeepsEven(With(c, chain)) && e.cpu.pc % 2 == 0 && Runs(With(c, chain), e, code, i)
    requires Clock(With(c, chain), After(With(c, chain), e, code, i), code).ticked
    ensures var x := After(With(c, chain), e, code, i); x.cpu.pc % 2 == 0 && !Stops(c.m, x)
    ensures i > 0 ==>
      var u := ExecuteStep(With(c, chain), e, code).state; Fetchable(c.m, code, u.cpu.pc) && !Stops(c.m, u)
  {
    hide With, ExecuteStep, Stops, Fetchable;
    var m := With(c, chain);
    EvenAfter(m, e, code, i);
    OkIsStep(c, chain, After(m, e, code, i), code);
    if i > 0 {
      OkIsStep(c, chain, e, code);
      StartClock(c, chain, Clock(m, e, code).state, code, i - 1);
    }
  }

  /** When the model only stops by memory and no fault hits the program counter: the replay confirms a found
      chain if and only if the instruction faulted last does not run straight into an end that is judged
      otherwise with the manipulated register still in place. */
  lemma {:induction false} LastFaultDecides(c: RegisterCampaign, s: State, code: seq<Byte>, budget: nat,
                                            found: RegisterChain)
    requires c.Valid() && KeepsEven(c.m) && StopsAlike(c.m) && |c.plan| > 0 && s.cpu.pc % 2 == 0
    requires found in Search(c, 0, s, code, budget, []) && NoCounterFault(found)
    ensures ValidChain(c, found)
    ensures Replayed(c, Aligned(s), code, found, budget) <==>
      var t := ExecuteStep(c.m, Last(c, s, code, found, 0), code).state;
        Stops(c.m, t) ==> c.m.evaluate(t, t.cpu.pc) == Exploitable
  {
    hide Search, Verdict, With, Last, GoesOn, StopsAlike, Ends, ExecuteStep, Judged, Run, KeepsEven, Stops, Fetchable;
    SearchReplaysIff(c, s, code, budget, found);
    SearchGoesOn(c, 0, s, code, budget, [], found);
    SearchEnds(c, 0, s, code, budget, [], found);
    var y := Last(c, s, code, found, 0);
    LastTest(c, y, code, found, budget - (y.cpu.time - s.cpu.time));
    StopSame(c.m, ExecuteStep(c.m, y, code).state, ExecuteStep(With(c, found), y, code).state);
  }

  /** In particular a model that looks at memory only is always confirmed. */
  lemma {:induction false} SearchReplays(c: RegisterCampaign, s: State, code: seq<Byte>, budget: nat,
                                         found: RegisterChain)
    requires c.Valid() && KeepsEven(c.m) && JudgesMemory(c.m) && |c.plan| > 0 && s.cpu.pc % 2 == 0
    requires found in Search(c, 0, s, code, budget, []) && NoCounterFault(found)
    ensures ValidChain(c, found) && Replayed(c, Aligned(s), code, found, budget)
  {
    hide Search, Verdict, With, Last, GoesOn, Ends, ExecuteStep, Judged, Run, KeepsEven;
    LastFaultDecides(c, s, code, budget, found);
    SearchGoesOn(c, 0, s, code, budget, [], found);
    SearchEnds(c, 0, s, code, budget, [], found);
    var y := Last(c, s, code, found, 0);
    LastTest(c, y, code, found, budget - (y.cpu.time - s.cpu.time));
  }

  // ---- Faults of the program counter ------------------------------------------------------------

  /** Only even addresses are written; no fault but the last runs into a stop; and the search does not end at
      a stop the replay passes untested: not at the address written last, and not at the one put back unless
      the address run into is a stop as well. */
  predicate Clear(c: RegisterCampaign, s: State, code: seq<Byte>, found: RegisterChain)
    requires ValidChain(c, found)
  {
    var y := Last(c, s, code, found, 0);
    && (forall f | f in found && f.reg == PC :: f.manipulated % 2 == 0)
    && GoesOn(c, s, code, found, 0) && !Stops(c.m, y)
    && (Stops(c.m, ExecuteStep(With(c, found), y, code).state) ==> Stops(c.m, ExecuteStep(c.m, y, code).state))
  }

  /** Such a chain, whatever registers it hits and whatever the model looks at, is confirmed if and only if
      the instruction faulted last runs into an address that can be fetched and is no other end. */
  lemma {:induction false} ClearDecides(c: RegisterCampaign, s: State, code: seq<Byte>, budget: nat,
                                        found: RegisterChain)
    requires c.Valid() && KeepsEven(c.m) && |c.plan| > 0 && s.cpu.pc % 2 == 0
    requires found in Search(c, 0, s, code, budget, []) && ValidChain(c, found) && Clear(c, s, code, found)
    ensures Replayed(c, Aligned(s), code, found, budget) <==>
      var t := ExecuteStep(c.m, Last(c, s, code, found, 0), code).state;
      Fetchable(c.m, code, t.cpu.pc) && (Stops(c.m, t) ==> c.m.evaluate(t, t.cpu.pc) == Exploitable)
  {
    hide Search, Verdict, With, Last, GoesOn, Ends, ExecuteStep, Judged, Run, KeepsEven, Stops, Fetchable;
    SearchReplaysIff(c, s, code, budget, found);
    SearchEnds(c, 0, s, code, budget, [], found);
    var y := Last(c, s, code, found, 0);
    LastTest(c, y, code, found, budget - (y.cpu.time - s.cpu.time));
  }
}
