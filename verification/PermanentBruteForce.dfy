/** The search with permanent faults is brute force over static instructions, clocks and iterations. */
module PermanentBruteForce {
  import opened Processor
  import opened Faults
  import opened SearchSpec
  import opened PermanentSearch
  import BruteForce

  /** Permanent faults come first.  Each changes a static instruction that no fault of the chain has changed, to
      bytes that decode, for good; a model injected twice takes its instructions in ascending order.  A chain of
      permanent faults is complete with all its models and must end exploitable within the budget; otherwise
      transient faults follow, by brute force on the patched code. */
  ghost predicate BruteForced(c: Campaign, level: nat, s: State, code: seq<Byte>, remaining: nat, chain: Chain,
                              from: nat, added: Chain)
    requires c.Valid()
    decreases |added|, 1
  {
    && added != [] && level < |c.plan|
    && if c.library[c.plan[level]].permanent
       then exists index | from <= index < |c.sites| :: Changes(c, level, s, code, remaining, chain, index, added)
       else BruteForce.BruteChain(c, level, s, code, remaining, chain, added)
  }

  ghost predicate Changes(c: Campaign, level: nat, s: State, code: seq<Byte>, remaining: nat, chain: Chain, index: nat,
                          added: Chain)
    requires c.Valid() && added != [] && level < |c.plan| && index < |c.sites|
    decreases |added|, 0
  {
    var site, f := c.sites[index], added[0];
    && BruteForce.Due(c, level, s.cpu.time, code, chain, site, f)
    && (forall g | g in chain :: g.address != site.address) && c.decodes(s.cpu, site.address, f.manipulated)
    && var patched := Patched(c.m, code, f.address, f.manipulated);
       if level + 1 == |c.plan|
       then |added| == 1 && BruteForce.EndsExploitable(c.m, Run(c.m, Aligned(s), patched, NO_END, remaining))
       else BruteForced(c, level + 1, s, patched, remaining, chain + [f],
                        if c.plan[level + 1] == c.plan[level] then index + 1 else 0, added[1..])
  }

  /** Walking by address is exact along the transient faults, on the code the permanent ones leave. */
  ghost predicate ExactBehind(c: Campaign, level: nat, s: State, code: seq<Byte>, remaining: nat, added: Chain)
    requires c.Valid()
    decreases |added|
  {
    added != [] && level < |c.plan| ==>
      if !c.library[c.plan[level]].permanent then BruteForce.ExactAlong(c, s, code, remaining, added)
      else var f := added[0];
        Contains(c.m.flashOffset, |code|, f.address, |f.manipulated|) ==>
          ExactBehind(c, level + 1, s, Patched(c.m, code, f.address, f.manipulated), remaining, added[1..])
  }

  lemma {:induction false} FoundExtends(c: Campaign, level: nat, s: State, code: seq<Byte>, remaining: nat,
                                        chain: Chain, from: nat, found: Chain)
    requires c.Valid() && KeepsEven(c.m) && level < |c.plan|
    requires found in FullSearch(c, level, s, code, remaining, chain, from)
    ensures chain < found
    decreases |c.plan| - level
  {
    hide Search, Skipped, Iterations, Run, PermanentVisits;
    if c.Active(level).permanent {
      var index, iteration := FromPermanentVisits(c, level, s, code, remaining, chain, Range(from, |c.sites|), found);
      var f := Applied(c.Active(level), Blank(c, level, s.cpu.time, code, c.sites[index], iteration));
      if level + 1 < |c.plan| {
        FoundExtends(c, level + 1, s, Patched(c.m, code, f.address, f.manipulated), remaining, chain + [f],
                     if c.plan[level + 1] == c.plan[level] then index + 1 else 0, found);
      }
    } else {
      BruteForce.FoundExtends(c, level, s, code, remaining, chain, found);
    }
  }

  /** One trial finds what follows behind its fault. */
  lemma {:induction false} TrialIs(c: Campaign, level: nat, s: State, code: seq<Byte>, remaining: nat, chain: Chain,
                                   index: nat, f: Fault, found: Chain)
    requires c.Valid() && level < |c.plan| && index < |c.sites| && InFlash(c.m, code, c.sites[index])
    requires f == Applied(c.Active(level), Blank(c, level, s.cpu.time, code, c.sites[index], f.iteration))
    ensures |f.manipulated| == f.size && Contains(c.m.flashOffset, |code|, f.address, f.size)
    ensures found in PermanentTrial(c, level, s, code, remaining, chain, index, f.iteration) <==>
      && !Skipped(c, level, chain, Blank(c, level, s.cpu.time, code, c.sites[index], f.iteration))
      && c.decodes(s.cpu, c.sites[index].address, f.manipulated)
      && found in PermanentRun(c, level, s, Patched(c.m, code, f.address, f.manipulated), remaining, chain + [f], index)
  {
    hide PermanentRun, Skipped;
  }

  /** The first fault added is the one its level injected. */
  lemma {:induction false} First(c: Campaign, level: nat, s: State, patched: seq<Byte>, remaining: nat, chain: Chain,
                                 index: nat, f: Fault, added: Chain)
    requires c.Valid() && KeepsEven(c.m) && level < |c.plan|
    requires chain + added in PermanentRun(c, level, s, patched, remaining, chain + [f], index)
    ensures added != [] && added[0] == f && chain + added == chain + [f] + added[1..]
  {
    hide FullSearch, Run;
    if level + 1 < |c.plan| {
      FoundExtends(c, level + 1, s, patched, remaining, chain + [f],
                   if c.plan[level + 1] == c.plan[level] then index + 1 else 0, chain + added);
    }
    assert (chain + [f])[|chain|] == (chain + added)[|chain|];
  }

  /** What follows behind the first fault, by brute force. */
  lemma {:induction false} RunIs(c: Campaign, level: nat, s: State, patched: seq<Byte>, remaining: nat, chain: Chain,
                                 index: nat, added: Chain)
    requires c.Valid() && KeepsEven(c.m) && level < |c.plan| && added != []
    requires level + 1 < |c.plan| ==>
      var (f, from) := (added[0], if c.plan[level + 1] == c.plan[level] then index + 1 else 0);
      chain + [f] + added[1..] in FullSearch(c, level + 1, s, patched, remaining, chain + [f], from) <==>
        BruteForced(c, level + 1, s, patched, remaining, chain + [f], from, added[1..])
    ensures chain + added in PermanentRun(c, level, s, patched, remaining, chain + [added[0]], index) <==>
      if level + 1 == |c.plan|
      then |added| == 1 && BruteForce.EndsExploitable(c.m, Run(c.m, Aligned(s), patched, NO_END, remaining))
      else BruteForced(c, level + 1, s, patched, remaining, chain + [added[0]],
                       if c.plan[level + 1] == c.plan[level] then index + 1 else 0, added[1..])
  {
    hide FullSearch, BruteForced, Run;
    assert chain + added == chain + [added[0]] + added[1..];
    assert |added| == 1 <==> chain + added == chain + [added[0]];
  }

  lemma {:induction false} FoundChanges(c: Campaign, level: nat, s: State, code: seq<Byte>, remaining: nat,
                                        chain: Chain, from: nat, added: Chain)
    requires c.Valid() && KeepsEven(c.m) && level < |c.plan| && c.Active(level).permanent
    requires ExactBehind(c, level, s, code, remaining, added)
    requires chain + added in FullSearch(c, level, s, code, remaining, chain, from)
    ensures BruteForced(c, level, s, code, remaining, chain, from, added)
    decreases |added|, 0
  {
    hide Search, PermanentVisits, PermanentRun, PermanentTrial, Skipped, Iterations, Applied, Run,
      BruteForce.ExactAlong, BruteForce.BruteChain, BruteForce.Due, BruteForced;
    var found := chain + added;
    var index, iteration := FromPermanentVisits(c, level, s, code, remaining, chain, Range(from, |c.sites|), found);
    var f := Applied(c.Active(level), Blank(c, level, s.cpu.time, code, c.sites[index], iteration));
    AppliedIs(c, level, s.cpu.time, code, c.sites[index], iteration);
    TrialIs(c, level, s, code, remaining, chain, index, f, found);
    var patched := Patched(c.m, code, f.address, f.manipulated);
    First(c, level, s, patched, remaining, chain, index, f, added);
    BruteForce.DueIs(c, level, s.cpu.time, code, chain, c.sites[index], f);
    if level + 1 < |c.plan| {
      ExactNext(c, level, s, code, remaining, added);
      FullSearchIsBruteForce(c, level + 1, s, patched, remaining, chain + [f],
                             if c.plan[level + 1] == c.plan[level] then index + 1 else 0, added[1..]);
    }
    RunIs(c, level, s, patched, remaining, chain, index, added);
    assert Changes(c, level, s, code, remaining, chain, index, added);
    ChangesIs(c, level, s, code, remaining, chain, from, index, added);
  }

  lemma {:induction false} ChangesFound(c: Campaign, level: nat, s: State, code: seq<Byte>, remaining: nat,
                                        chain: Chain, from: nat, index: nat, added: Chain)
    requires c.Valid() && KeepsEven(c.m) && level < |c.plan| && c.Active(level).permanent
    requires ExactBehind(c, level, s, code, remaining, added)
    requires from <= index < |c.sites| && added != [] && Changes(c, level, s, code, remaining, chain, index, added)
    ensures chain + added in FullSearch(c, level, s, code, remaining, chain, from)
    decreases |added|, 0
  {
    hide Search, PermanentVisits, PermanentRun, PermanentTrial, Skipped, Iterations, Blank, Applied, Run,
      BruteForce.ExactAlong, BruteForce.BruteChain, BruteForced, BruteForce.Due;
    var f, site := added[0], c.sites[index];
    BruteForce.DueFits(c, level, s.cpu.time, code, chain, site, f);
    BruteForce.DueIs(c, level, s.cpu.time, code, chain, site, f);
    TrialIs(c, level, s, code, remaining, chain, index, f, chain + added);
    var patched := Patched(c.m, code, f.address, f.manipulated);
    if level + 1 < |c.plan| {
      ExactNext(c, level, s, code, remaining, added);
      FullSearchIsBruteForce(c, level + 1, s, patched, remaining, chain + [f],
                             if c.plan[level + 1] == c.plan[level] then index + 1 else 0, added[1..]);
    }
    RunIs(c, level, s, patched, remaining, chain, index, added);
    var tickets := Range(from, |c.sites|);
    assert tickets[index - from] == index;
    IntoPermanentVisits(c, level, s, code, remaining, chain, tickets, index - from, f.iteration, chain + added);
  }

  lemma {:induction false} AppliedIs(c: Campaign, level: nat, time: nat, code: seq<Byte>, site: Site, iteration: nat)
    requires c.Valid() && level < |c.plan| && InFlash(c.m, code, site) && site.size in {2, 4}
    ensures var f := Applied(c.Active(level), Blank(c, level, time, code, site, iteration));
      f.iteration == iteration && f.address == site.address && |f.manipulated| == f.size == site.size
  {
  }

  lemma {:induction false} ExactNext(c: Campaign, level: nat, s: State, code: seq<Byte>, remaining: nat, added: Chain)
    requires c.Valid() && level + 1 < |c.plan| && c.Active(level).permanent && added != []
    requires ExactBehind(c, level, s, code, remaining, added)
    requires Contains(c.m.flashOffset, |code|, added[0].address, |added[0].manipulated|)
    ensures ExactBehind(c, level + 1, s, Patched(c.m, code, added[0].address, added[0].manipulated), remaining,
                        added[1..])
  {
    hide BruteForce.ExactAlong, Patched;
  }

  lemma {:induction false} ChangesIs(c: Campaign, level: nat, s: State, code: seq<Byte>, remaining: nat, chain: Chain,
                                     from: nat, index: nat, added: Chain)
    requires c.Valid() && level < |c.plan| && c.Active(level).permanent && from <= index < |c.sites| && added != []
    requires Changes(c, level, s, code, remaining, chain, index, added)
    ensures BruteForced(c, level, s, code, remaining, chain, from, added)
  {
    hide Changes, BruteForce.BruteChain;
  }

  lemma {:induction false} IndexOf(c: Campaign, level: nat, s: State, code: seq<Byte>, remaining: nat, chain: Chain,
                                   from: nat, added: Chain)
      returns (index: nat)
    requires c.Valid() && level < |c.plan| && c.Active(level).permanent
    requires BruteForced(c, level, s, code, remaining, chain, from, added)
    ensures from <= index < |c.sites| && added != [] && Changes(c, level, s, code, remaining, chain, index, added)
  {
    hide BruteForce.BruteChain, BruteForce.Due, Run, Patched;
    index :| from <= index < |c.sites| && Changes(c, level, s, code, remaining, chain, index, added);
  }

  /** The full search of a level finds exactly what brute force finds. */
  lemma {:induction false} FullSearchIsBruteForce(c: Campaign, level: nat, s: State, code: seq<Byte>, remaining: nat,
                                                  chain: Chain, from: nat, added: Chain)
    requires c.Valid() && KeepsEven(c.m) && level < |c.plan| && ExactBehind(c, level, s, code, remaining, added)
    ensures chain + added in FullSearch(c, level, s, code, remaining, chain, from) <==>
      BruteForced(c, level, s, code, remaining, chain, from, added)
    decreases |added|, 1
  {
    hide Search, PermanentVisits, BruteForce.ExactAlong, BruteForce.BruteChain, Changes;
    if added == [] {
      if chain + added in FullSearch(c, level, s, code, remaining, chain, from) {
        FoundExtends(c, level, s, code, remaining, chain, from, chain + added);
      }
    } else if !c.Active(level).permanent {
      BruteForce.SearchIsBruteForce(c, level, s, code, remaining, chain, added);
    } else {
      if chain + added in FullSearch(c, level, s, code, remaining, chain, from) {
        FoundChanges(c, level, s, code, remaining, chain, from, added);
      }
      if BruteForced(c, level, s, code, remaining, chain, from, added) {
        var index := IndexOf(c, level, s, code, remaining, chain, from, added);
        ChangesFound(c, level, s, code, remaining, chain, from, index, added);
      }
    }
  }
}
