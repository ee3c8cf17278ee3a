/** The search for transient faults of any order is brute force over clocks and iterations. */
module BruteForce {
  import opened Processor
  import opened Faults
  import opened SearchSpec
  import opened TraceWalk
  import ExactWalk
  import ReplayTheorem

  // ---- Brute force ------------------------------------------------------------------------------

  /** `f` is what one iteration of the level's model makes of the instruction at `site`: the model accepts it,
      it changes the bytes, and the chain it completes is not redundant. */
  predicate Due(c: Campaign, level: nat, time: nat, code: seq<Byte>, chain: Chain, site: Site, f: Fault)
    requires c.Valid() && level < |c.plan|
  {
    && Contains(c.m.flashOffset, |code|, site.address, site.size) && site.size in {2, 4}
    && (var model, at := c.library[c.plan[level]], site.address - c.m.flashOffset;
       var blank := Fault(c.plan[level], time, f.iteration, site.address, site.size, code[at..at + site.size], []);
       && f.iteration < model.iterations(blank.(iteration := 0)) && model.isApplicable(blank)
       && f == blank.(manipulated := model.inject(blank)[..site.size]) && f.manipulated != f.original)
    && !c.redundant(chain + [f])
  }

  /** The fault strikes within the budget: the run from `s` gets to its time. */
  predicate Reached(c: Campaign, s: State, code: seq<Byte>, budget: nat, f: Fault) {
    && s.cpu.time <= f.time < s.cpu.time + budget
    && Runs(c.m, Aligned(s), code, f.time - s.cpu.time)
    && Contains(c.m.flashOffset, |code|, f.address, |f.manipulated|)
  }

  /** Outside the ignored ranges of addresses, whose ends wrap, and of times. */
  predicate Considered(ig: Ignore, pc: Word, time: nat) {
    && (forall r | r in ig.memory :: !(r.offset <= pc < (r.offset + r.size) % WORD_LIMIT))
    && forall r | r in ig.time :: !(r.start <= time < r.end)
  }

  /** The run stops at an end address that is judged exploitable. */
  predicate EndsExploitable(m: Machine, o: Outcome) {
    o.ret == StopEmulationCalled && m.evaluate(o.state, o.state.cpu.pc) == Exploitable
  }

  /** The instruction it strikes executes outside the ignored ranges, no permanent fault of the chain has
      changed it, and the fault is due there. */
  predicate Strikes(c: Campaign, level: nat, s: State, code: seq<Byte>, budget: nat, chain: Chain, f: Fault)
    requires c.Valid() && level < |c.plan| && Reached(c, s, code, budget, f)
  {
    var x := After(c.m, Aligned(s), code, f.time - s.cpu.time);
    && Clock(c.m, x, code).ticked && Considered(c.ignore, x.cpu.pc, f.time)
    && (forall g | g in chain :: g.model < |c.library| && (c.library[g.model].permanent ==> g.address != x.cpu.pc))
    && Due(c, level, f.time, code, chain, Site(x.cpu.pc, SizeAt(c.m, code, x.cpu.pc)), f)
  }

  /** The clock at which it strikes, on patched code. */
  function FaultedClock(c: Campaign, s: State, code: seq<Byte>, budget: nat, f: Fault): Tick
    requires Reached(c, s, code, budget, f)
  {
    Clock(c.m, After(c.m, Aligned(s), code, f.time - s.cpu.time), Patched(c.m, code, f.address, f.manipulated))
  }

  /** What is left of the budget behind it. */
  function Left(c: Campaign, s: State, code: seq<Byte>, budget: nat, f: Fault): nat
    requires Reached(c, s, code, budget, f)
  {
    budget - (f.time - s.cpu.time) - 1
  }

  /** Fault by fault: clean clocks, one clock on patched code, and clean code again.  The run behind the last
      fault ends exploitable within the budget, and behind no earlier one. */
  predicate BruteChain(c: Campaign, level: nat, s: State, code: seq<Byte>, budget: nat, chain: Chain, added: Chain)
    requires c.Valid()
    decreases |added|
  {
    && added != [] && level < |c.plan| && Reached(c, s, code, budget, added[0])
    && Strikes(c, level, s, code, budget, chain, added[0])
    && (var t, left := FaultedClock(c, s, code, budget, added[0]), Left(c, s, code, budget, added[0]);
       && t.ret == Ok
       && if EndsExploitable(c.m, Run(c.m, t.state, code, NO_END, left)) then |added| == 1
          else BruteChain(c, level + 1, t.state, code, left, chain + [added[0]], added[1..]))
  }

  /** In the run from `s`, and in those behind each fault but the last, no collected address is visited between
      the clock of the previous collected instruction and its own. */
  ghost predicate ExactAlong(c: Campaign, s: State, code: seq<Byte>, budget: nat, added: Chain)
    decreases |added|
  {
    && (forall i | 0 <= i < |Sites(c, s, code, budget)| :: ExactWalk.NoEarlierVisit(c, s, code, budget, i))
    && (|added| > 1 && Reached(c, s, code, budget, added[0]) ==>
        ExactAlong(c, FaultedClock(c, s, code, budget, added[0]).state, code, Left(c, s, code, budget, added[0]),
                   added[1..]))
  }

  // ---- One trial --------------------------------------------------------------------------------

  /** Behind the fault the run is exploitable and the chain complete, or the next level finds it. */
  ghost predicate Leads(c: Campaign, level: nat, x: State, code: seq<Byte>, remaining: nat, chain: Chain, f: Fault,
                        found: Chain)
    requires c.Valid() && level < |c.plan| && Contains(c.m.flashOffset, |code|, f.address, |f.manipulated|)
  {
    var t := Clock(c.m, x, Patched(c.m, code, f.address, f.manipulated));
    && remaining > 0 && t.ret == Ok
    && if Exploits(Run(c.m, t.state, code, NO_END, remaining - 1), c.m) then found == chain + [f]
       else level + 1 < |c.plan| && found in Search(c, level + 1, t.state, code, remaining - 1, chain + [f])
  }

  /** With one clock or none nothing is found: the exploitable end needs a clock behind the fault. */
  lemma {:induction false} TooShort(c: Campaign, level: nat, s: State, code: seq<Byte>, budget: nat, chain: Chain,
                                    found: Chain)
    requires c.Valid() && KeepsEven(c.m) && level < |c.plan| && !c.Active(level).permanent
    requires found in Search(c, level, s, code, budget, chain)
    ensures budget > 1
  {
    hide Search, ExecuteStep, Fetchable, ReplayTheorem.Fresh, Run, Patched, ReplayTheorem.InjectionPoint;
    var p, site, f := ReplayTheorem.NextFault(c, level, s, code, budget, chain, found);
  }

  lemma {:induction false} StepIs(c: Campaign, x: State, code: seq<Byte>)
    requires KeepsEven(c.m) && x.cpu.pc % 2 == 0 && !Stops(c.m, x)
    ensures var o, t := Emulated(c.m, x, code, NO_END, 1), Clock(c.m, x, code);
      && o.ret != StopEmulationCalled && (o.ret == MaxInstructionsReached <==> t.ret == Ok)
      && (t.ret == Ok ==> o.state == t.state && Aligned(t.state) == t.state)
  {
    hide StoredAll;
    assert Aligned(x) == x;
    var t := Clock(c.m, x, code);
    if t.ret == Ok {
      assert Run(c.m, t.state, code, NO_END, 0) == Outcome(t.state, MaxInstructionsReached, 0);
    }
  }

  lemma {:induction false} TrialLeads(c: Campaign, level: nat, x: State, code: seq<Byte>, remaining: nat, chain: Chain,
                                      site: Site, iteration: nat, found: Chain)
    requires c.Valid() && KeepsEven(c.m) && level < |c.plan| && !c.Active(level).permanent && remaining > 0
    requires InFlash(c.m, code, site) && site.size in {2, 4} && x.cpu.pc % 2 == 0 && !Stops(c.m, x)
    ensures var blank := Blank(c, level, x.cpu.time, code, site, iteration);
      var f := Applied(c.Active(level), blank);
      found in Trial(c, level, x, code, remaining, chain, site, iteration) <==>
        !Skipped(c, level, chain, blank) && Leads(c, level, x, code, remaining, chain, f, found)
  {
    hide Search, Skipped, Clock, Run, Patched, Stops;
    var f := Applied(c.Active(level), Blank(c, level, x.cpu.time, code, site, iteration));
    var patched := Patched(c.m, code, f.address, f.manipulated);
    StepIs(c, x, patched);
    var t := Clock(c.m, x, patched);
    assert remaining == 1 ==> Run(c.m, t.state, code, NO_END, 0).ret == MaxInstructionsReached by {
      RunNothing(c.m, t.state, code);
    }
    if level + 1 < |c.plan| && found in Search(c, level + 1, t.state, code, remaining - 1, chain + [f]) {
      TooShort(c, level + 1, t.state, code, remaining - 1, chain + [f], found);
    }
  }

  lemma {:induction false} RunNothing(m: Machine, s: State, code: seq<Byte>)
    ensures Run(m, s, code, NO_END, 0).ret == MaxInstructionsReached
  {
  }

  lemma {:induction false} ConsideredIs(ig: Ignore, cpu: Cpu)
    ensures Considered(ig, cpu.pc, cpu.time) <==> !Ignored(ig, cpu)
  {
  }

  lemma {:induction false} DueIs(c: Campaign, level: nat, time: nat, code: seq<Byte>, chain: Chain, site: Site,
                                 f: Fault)
    requires c.Valid() && level < |c.plan| && InFlash(c.m, code, site) && site.size in {2, 4}
    ensures Due(c, level, time, code, chain, site, f) <==>
      var blank := Blank(c, level, time, code, site, f.iteration);
      && f.iteration < Iterations(c, level, time, code, site) && !Skipped(c, level, chain, blank)
      && f == Applied(c.Active(level), blank)
  {
  }

  lemma {:induction false} DueFits(c: Campaign, level: nat, time: nat, code: seq<Byte>, chain: Chain, site: Site,
                                   f: Fault)
    requires c.Valid() && level < |c.plan| && Due(c, level, time, code, chain, site, f)
    ensures InFlash(c.m, code, site) && site.size in {2, 4} && f.address == site.address
    ensures |f.manipulated| == f.size == site.size
  {
  }

  // ---- One visit --------------------------------------------------------------------------------

  /** `f` is the fault by which the level comes to `found`. */
  ghost predicate By(c: Campaign, level: nat, s: State, code: seq<Byte>, budget: nat, chain: Chain, f: Fault,
                     found: Chain)
    requires c.Valid() && level < |c.plan|
  {
    && Reached(c, s, code, budget, f) && Strikes(c, level, s, code, budget, chain, f)
    && Leads(c, level, After(c.m, Aligned(s), code, f.time - s.cpu.time), code, budget - (f.time - s.cpu.time), chain,
             f, found)
  }

  /** Where an exact walk stands before site `i`. */
  lemma {:induction false} ExactPoint(c: Campaign, s: State, code: seq<Byte>, budget: nat, i: nat)
    requires KeepsEven(c.m) && i < |Sites(c, s, code, budget)| && ExactWalk.ExactAt(c, s, code, budget, i)
    ensures var sites, k := Sites(c, s, code, budget), SiteClock(c, s, code, budget, i);
      && k < budget && Runs(c.m, Aligned(s), code, k)
      && var x := After(c.m, Aligned(s), code, k);
      && x.cpu.pc % 2 == 0 && !Stops(c.m, x) && InFlash(c.m, code, sites[i]) && sites[i].size in {2, 4}
      && Walk(c, s, code, budget, sites, i) == Position(x, budget - k)
      && CollectedAt(c.m, c.ignore, x, code) == [sites[i]]
  {
    hide Collected, Clocks, Walk, Runs, After, StoredAll;
    SiteIsCollected(c, s, code, budget, i);
    SiteFits(c, s, code, budget, i);
    EvenAfter(c.m, Aligned(s), code, SiteClock(c, s, code, budget, i));
  }

  /** The site an executed instruction is collected as. */
  lemma {:induction false} SiteOf(c: Campaign, x: State, code: seq<Byte>, site: Site)
    requires CollectedAt(c.m, c.ignore, x, code) == [site]
    ensures Clock(c.m, x, code).ticked && Considered(c.ignore, x.cpu.pc, x.cpu.time)
    ensures Fetchable(c.m, code, x.cpu.pc) && site == Site(x.cpu.pc, SizeAt(c.m, code, x.cpu.pc))
  {
    hide ExecuteStep, Ignored, Considered;
    ConsideredIs(c.ignore, x.cpu);
  }

  lemma {:induction false} VisitBy(c: Campaign, level: nat, s: State, code: seq<Byte>, budget: nat, chain: Chain,
                                   i: nat, found: Chain)
      returns (f: Fault)
    requires c.Valid() && KeepsEven(c.m) && level < |c.plan| && !c.Active(level).permanent
    requires i < |Sites(c, s, code, budget)| && ExactWalk.ExactAt(c, s, code, budget, i)
    requires var sites := Sites(c, s, code, budget);
      found in Visit(c, level, Walk(c, s, code, budget, sites, i), code, chain, sites[i])
    ensures By(c, level, s, code, budget, chain, f, found)
  {
    hide Trials, Trial, Search, Clock, Walk, Sites, SiteClock, Iterations, Skipped, Due, Runs, After, Leads, Run, Stops,
      CollectedAt, Ignored, Considered, ExactWalk.ExactAt;
    var site, k := Sites(c, s, code, budget)[i], SiteClock(c, s, code, budget, i);
    ExactPoint(c, s, code, budget, i);
    var x := After(c.m, Aligned(s), code, k);
    SiteOf(c, x, code, site);
    var iteration := ReplayTheorem.FoundInTrials(c, level, x, code, budget - k, chain, site,
                                                 Iterations(c, level, x.cpu.time, code, site), found);
    f := Applied(c.Active(level), Blank(c, level, x.cpu.time, code, site, iteration));
    TrialLeads(c, level, x, code, budget - k, chain, site, iteration, found);
    DueIs(c, level, x.cpu.time, code, chain, site, f);
  }

  lemma {:induction false} ByVisit(c: Campaign, level: nat, s: State, code: seq<Byte>, budget: nat, chain: Chain,
                                   i: nat, f: Fault, found: Chain)
    requires c.Valid() && KeepsEven(c.m) && level < |c.plan| && !c.Active(level).permanent
    requires i < |Sites(c, s, code, budget)| && ExactWalk.ExactAt(c, s, code, budget, i)
    requires By(c, level, s, code, budget, chain, f, found) && f.time == s.cpu.time + SiteClock(c, s, code, budget, i)
    ensures var sites := Sites(c, s, code, budget);
      found in Visit(c, level, Walk(c, s, code, budget, sites, i), code, chain, sites[i])
  {
    hide Trials, Trial, Search, Clock, Walk, Sites, SiteClock, Iterations, Skipped, Due, Runs, After, Leads, Run, Stops,
      CollectedAt, Ignored, Considered, ExactWalk.ExactAt;
    var site, k := Sites(c, s, code, budget)[i], SiteClock(c, s, code, budget, i);
    ExactPoint(c, s, code, budget, i);
    var x := After(c.m, Aligned(s), code, k);
    SiteOf(c, x, code, site);
    DueIs(c, level, x.cpu.time, code, chain, site, f);
    TrialLeads(c, level, x, code, budget - k, chain, site, f.iteration, found);
    TrialInTrials(c, level, x, code, budget - k, chain, site,
                  Iterations(c, level, x.cpu.time, code, site), f.iteration, found);
  }

  /** What a level finds, it comes to by some fault, and the other way round. */
  lemma {:induction false} SearchBy(c: Campaign, level: nat, s: State, code: seq<Byte>, budget: nat, chain: Chain,
                                    found: Chain)
    requires c.Valid() && KeepsEven(c.m) && level < |c.plan| && !c.Active(level).permanent
    requires forall i | 0 <= i < |Sites(c, s, code, budget)| :: ExactWalk.NoEarlierVisit(c, s, code, budget, i)
    ensures found in Search(c, level, s, code, budget, chain) <==>
      exists f :: By(c, level, s, code, budget, chain, f, found)
  {
    hide Visit, Walk, Sites, SiteClock, ExactWalk.ExactAt, ExactWalk.NoEarlierVisit, By;
    ExactWalk.WalkExactIff(c, s, code, budget);
    var n := |Sites(c, s, code, budget)|;
    if found in Search(c, level, s, code, budget, chain) {
      var i := ReplayTheorem.FoundInVisit(c, level, s, code, budget, chain, UpTo(n), found);
      var f := VisitBy(c, level, s, code, budget, chain, i, found);
    }
    forall f | By(c, level, s, code, budget, chain, f, found)
      ensures found in Search(c, level, s, code, budget, chain)
    {
      var i := SiteStruck(c, level, s, code, budget, chain, f, found);
      ByVisit(c, level, s, code, budget, chain, i, f, found);
      VisitInVisits(c, level, s, code, budget, chain, UpTo(n), i, found);
    }
  }

  /** A fault that strikes strikes at the clock of some site. */
  lemma {:induction false} SiteStruck(c: Campaign, level: nat, s: State, code: seq<Byte>, budget: nat, chain: Chain,
                                      f: Fault, found: Chain)
      returns (i: nat)
    requires c.Valid() && KeepsEven(c.m) && level < |c.plan| && By(c, level, s, code, budget, chain, f, found)
    ensures i < |Sites(c, s, code, budget)| && f.time == s.cpu.time + SiteClock(c, s, code, budget, i)
  {
    hide Due, Leads, Sites, SiteClock, Runs, After, Clock, Ignored, Considered;
    ConsideredIs(c.ignore, After(c.m, Aligned(s), code, f.time - s.cpu.time).cpu);
    i := ExactWalk.SiteOfClock(c, s, code, budget, f.time - s.cpu.time);
  }

  // ---- Any order --------------------------------------------------------------------------------

  /** What a level finds extends the chain it was given. */
  lemma {:induction false} FoundExtends(c: Campaign, level: nat, s: State, code: seq<Byte>, budget: nat, chain: Chain,
                                        found: Chain)
    requires c.Valid() && KeepsEven(c.m) && level < |c.plan| && !c.Active(level).permanent
    requires found in Search(c, level, s, code, budget, chain)
    ensures chain < found
  {
    hide Search;
    var added := ReplayTheorem.SearchFetches(c, level, s, code, budget, chain, found);
  }

  lemma {:induction false} Extended(chain: Chain, f: Fault, added: Chain)
    requires chain + [f] <= chain + added
    ensures added != [] && added[0] == f && chain + added == chain + [f] + added[1..]
  {
    assert (chain + [f])[|chain|] == (chain + added)[|chain|];
  }

  /** The fault by which the search comes to `chain + added` is the first one added. */
  lemma {:induction false} ByFirst(c: Campaign, level: nat, s: State, code: seq<Byte>, budget: nat, chain: Chain,
                                   added: Chain, f: Fault)
    requires c.Valid() && KeepsEven(c.m) && level < |c.plan| && !c.Active(level).permanent
    requires By(c, level, s, code, budget, chain, f, chain + added)
    ensures added != [] && added[0] == f && chain + added == chain + [f] + added[1..]
  {
    hide Search, Strikes, Run, Runs, After, Clock;
    var t := FaultedClock(c, s, code, budget, f).state;
    if chain + added != chain + [f] {
      FoundExtends(c, level + 1, t, code, Left(c, s, code, budget, f), chain + [f], chain + added);
    }
    Extended(chain, f, added);
  }

  /** What comes behind the first fault. */
  lemma {:induction false} LeadsIs(c: Campaign, level: nat, s: State, code: seq<Byte>, budget: nat, chain: Chain,
                                   added: Chain)
    requires c.Valid() && level < |c.plan| && added != [] && Reached(c, s, code, budget, added[0])
    ensures var f := added[0];
      var t, left := FaultedClock(c, s, code, budget, f), Left(c, s, code, budget, f);
      Leads(c, level, After(c.m, Aligned(s), code, f.time - s.cpu.time), code, budget - (f.time - s.cpu.time), chain, f,
            chain + added) <==>
        && t.ret == Ok
        && if Exploits(Run(c.m, t.state, code, NO_END, left), c.m) then |added| == 1
           else level + 1 < |c.plan| &&
                chain + [f] + added[1..] in Search(c, level + 1, t.state, code, left, chain + [f])
  {
    hide Search, Run, Runs, After, Clock, Patched;
    assert chain + added == chain + [added[0]] + added[1..];
    assert |added| == 1 <==> chain + added == chain + [added[0]];
  }

  /** If walking by address is exact along the chain, a level finds it exactly when brute force does. */
  lemma {:induction false} SearchIsBruteForce(c: Campaign, level: nat, s: State, code: seq<Byte>, budget: nat,
                                              chain: Chain, added: Chain)
    requires c.Valid() && KeepsEven(c.m) && level < |c.plan| && !c.Active(level).permanent
    requires ExactAlong(c, s, code, budget, added)
    ensures chain + added in Search(c, level, s, code, budget, chain) <==>
      BruteChain(c, level, s, code, budget, chain, added)
    decreases |added|
  {
    hide Search, Strikes, Reached, Leads, Run, Runs, After, Sites, ExactWalk.NoEarlierVisit, FaultedClock, Left;
    SearchBy(c, level, s, code, budget, chain, chain + added);
    if chain + added in Search(c, level, s, code, budget, chain) {
      var f :| By(c, level, s, code, budget, chain, f, chain + added);
      ByFirst(c, level, s, code, budget, chain, added, f);
    }
    if added != [] && Reached(c, s, code, budget, added[0]) {
      var f := added[0];
      var t, left := FaultedClock(c, s, code, budget, f).state, Left(c, s, code, budget, f);
      LeadsIs(c, level, s, code, budget, chain, added);
      if level + 1 < |c.plan| {
        if |added| > 1 {
          SearchIsBruteForce(c, level + 1, t, code, left, chain + [f], added[1..]);
        } else if chain + [f] + added[1..] in Search(c, level + 1, t, code, left, chain + [f]) {
          FoundExtends(c, level + 1, t, code, left, chain + [f], chain + [f] + added[1..]);
        }
      }
      assert By(c, level, s, code, budget, chain, f, chain + added) <==>
        Strikes(c, level, s, code, budget, chain, f) && BruteChain(c, level, s, code, budget, chain, added);
    }
  }
}
