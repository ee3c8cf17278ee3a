/** The search agrees with replaying its chains from the start, exactly when no fetch behind a fault trips
    over the bytes of that fault. */
module ReplayTheorem {
  import opened Processor
  import opened Faults
  import opened SearchSpec
  import opened TraceWalk
  import opened Replay

  // ---- The search side: where a pushed chain comes from -----------------------------------------

  lemma {:induction false} FoundInVisit(c: Campaign, level: nat, s: State, code: seq<Byte>, budget: nat, chain: Chain,
                                        tickets: seq<nat>, found: Chain)
      returns (i: nat)
    requires c.Valid() && level < |c.plan|
    requires forall i | 0 <= i < |tickets| :: tickets[i] < |Sites(c, s, code, budget)|
    requires found in Visits(c, level, s, code, budget, chain, tickets)
    ensures var sites := Sites(c, s, code, budget);
      i < |sites| && found in Visit(c, level, Walk(c, s, code, budget, sites, i), code, chain, sites[i])
    decreases |tickets|
  {
    hide Visit, Walk, Sites;
    var rest := tickets[..|tickets| - 1];
    if found in Visits(c, level, s, code, budget, chain, rest) {
      i := FoundInVisit(c, level, s, code, budget, chain, rest, found);
    } else {
      i := tickets[|tickets| - 1];
    }
  }

  lemma {:induction false} FoundInTrials(c: Campaign, level: nat, s: State, code: seq<Byte>, remaining: nat,
                                         chain: Chain, site: Site, upTo: nat, found: Chain)
      returns (iteration: nat)
    requires c.Valid() && level < |c.plan| && InFlash(c.m, code, site) && site.size in {2, 4}
    requires found in Trials(c, level, s, code, remaining, chain, site, upTo)
    ensures iteration < upTo && found in Trial(c, level, s, code, remaining, chain, site, iteration)
    decreases upTo
  {
    hide Trial;
    if found in Trials(c, level, s, code, remaining, chain, site, upTo - 1) {
      iteration := FoundInTrials(c, level, s, code, remaining, chain, site, upTo - 1, found);
    } else {
      iteration := upTo - 1;
    }
  }

  /** A state the search injects into: `p` clean clocks after the level's start, before an instruction
      that can be fetched and is no stop. */
  ghost predicate InjectionPoint(c: Campaign, e: State, code: seq<Byte>, r: nat, p: nat, site: Site) {
    && p < r && Runs(c.m, Aligned(e), code, p)
    && InFlash(c.m, code, site) && site.size in {2, 4}
    && (var s := After(c.m, Aligned(e), code, p);
       s.cpu.pc == site.address && Fetchable(c.m, code, s.cpu.pc) && !Stops(c.m, s))
  }

  lemma {:induction false} WalkIsInjectionPoint(c: Campaign, e: State, code: seq<Byte>, r: nat, i: nat) returns (p: nat)
    requires KeepsEven(c.m) && i < |Sites(c, e, code, r)|
    ensures InjectionPoint(c, e, code, r, p, Sites(c, e, code, r)[i])
    ensures Walk(c, e, code, r, Sites(c, e, code, r), i) == Position(After(c.m, Aligned(e), code, p), r - p)
  {
    hide Walk, Clock;
    var p0 := WalkStands(c, e, code, r, i - 1);
    SiteIsCollected(c, e, code, r, i);
    p := WalkLeg(c, e, code, r, i, p0);
    SiteFits(c, e, code, r, i);
    var k := SiteClock(c, e, code, r, i);
    NoStopBefore(c, Aligned(e), code, p, k);
  }

  lemma {:induction false} NoStopBefore(c: Campaign, s: State, code: seq<Byte>, p: nat, k: nat)
    requires p <= k && Runs(c.m, s, code, k) && Clock(c.m, After(c.m, s, code, k), code).ticked
    ensures Runs(c.m, s, code, p)
    ensures var x := After(c.m, s, code, p); Fetchable(c.m, code, x.cpu.pc) && !Stops(c.m, x)
  {
    RunsPrefix(c.m, s, code, p, k);
    if p < k {
      RunsSplit(c.m, s, code, p, k - p);
    }
  }

  lemma {:induction false} FoundInTrial(c: Campaign, level: nat, e: State, code: seq<Byte>, r: nat, chain: Chain,
                                        found: Chain)
      returns (p: nat, site: Site, iteration: nat)
    requires c.Valid() && KeepsEven(c.m) && level < |c.plan|
    requires found in Search(c, level, e, code, r, chain)
    ensures InjectionPoint(c, e, code, r, p, site)
    ensures found in Trial(c, level, After(c.m, Aligned(e), code, p), code, r - p, chain, site, iteration)
  {
    hide Walk, Sites, Trial, Trials, Clock;
    var sites := Sites(c, e, code, r);
    var i := FoundInVisit(c, level, e, code, r, chain, UpTo(|sites|), found);
    p := WalkIsInjectionPoint(c, e, code, r, i);
    site := sites[i];
    var s := After(c.m, Aligned(e), code, p);
    iteration := FoundInTrials(c, level, s, code, r - p, chain, site, Iterations(c, level, s.cpu.time, code, site),
                               found);
  }

  // ---- The replay side --------------------------------------------------------------------------

  /** The recorded original and manipulated bytes are those the replay reads and computes. */
  ghost predicate Fresh(c: Campaign, code: seq<Byte>, f: Fault) {
    ValidFault(c, code, f) && |f.manipulated| == f.size && Refreshed(c, code, f) == f
  }

  /** A list of transient faults recorded on the clean code, in order of time. */
  ghost predicate Recorded(c: Campaign, code: seq<Byte>, faults: Chain) {
    && (forall i | 0 <= i < |faults| :: Fresh(c, code, faults[i]) && !c.library[faults[i].model].permanent)
    && (forall i, j | 0 <= i < j < |faults| :: faults[i].time < faults[j].time)
  }

  ghost predicate Quiet(faults: Chain, time: nat) {
    forall i | 0 <= i < |faults| :: faults[i].time != time
  }

  /** Taking back a fault on clean code changes nothing. */
  lemma {:induction false} RevertedClean(c: Campaign, code: seq<Byte>, faults: Chain, time: nat)
    requires Recorded(c, code, faults)
    ensures Reverted(c, code, faults, time) == code
    decreases |faults|
  {
    if faults != [] {
      var f := faults[0];
      assert Patched(c.m, code, f.address, f.original) == code;
      RevertedClean(c, code, faults[1..], time);
    }
  }

  lemma {:induction false} FreshBytes(c: Campaign, code: seq<Byte>, f: Fault)
    requires Fresh(c, code, f)
    ensures ValidFault(c, code, f) && |f.manipulated| == f.size
    ensures f.original == BytesAt(c.m, code, Site(f.address, f.size))
  {
  }

  lemma {:induction false} StillValid(c: Campaign, code: seq<Byte>, other: seq<Byte>, faults: Chain)
    requires Recorded(c, code, faults) && |code| == |other|
    ensures ValidFaults(c, other, faults)
  {
  }

  /** Behind an injected fault the first loop restores the clean code. */
  lemma {:induction false} RevertedPending(c: Campaign, code: seq<Byte>, faults: Chain, j: nat)
    requires Recorded(c, code, faults) && j < |faults|
    ensures var f := faults[j];
      var patched := Patched(c.m, code, f.address, f.manipulated);
      ValidFaults(c, patched, faults) && Reverted(c, patched, faults, f.time + 1) == code
    decreases |faults|
  {
    hide Refreshed, Fresh, Patched;
    var f := faults[j];
    FreshBytes(c, code, f);
    var patched := Patched(c.m, code, f.address, f.manipulated);
    PatchUndone(c.m, code, Site(f.address, f.size), f.manipulated);
    StillValid(c, code, patched, faults);
    if j == 0 {
      assert Patched(c.m, patched, f.address, f.original) == code;
      RevertedClean(c, code, faults[1..], f.time + 1);
    } else {
      RevertedPending(c, code, faults[1..], j - 1);
    }
  }

  lemma {:induction false} InjectedQuiet(c: Campaign, code: seq<Byte>, faults: Chain, time: nat)
    requires ValidFaults(c, code, faults) && Quiet(faults, time)
    ensures Injected(c, code, faults, time) == (code, faults)
    decreases |faults|
  {
    if faults != [] {
      InjectedQuiet(c, code, faults[1..], time);
      assert faults == [faults[0]] + faults[1..];
    }
  }

  lemma {:induction false} RecordedFront(c: Campaign, code: seq<Byte>, faults: Chain)
    requires Recorded(c, code, faults) && faults != []
    ensures Fresh(c, code, faults[0]) && Recorded(c, code, faults[1..]) && Quiet(faults[1..], faults[0].time)
    ensures ValidFaults(c, code, faults) && ValidFaults(c, code, faults[1..])
    ensures forall j | 0 < j < |faults| :: faults[0].time != faults[j].time
  {
    hide Refreshed;
  }

  lemma {:induction false} InjectedOne(c: Campaign, code: seq<Byte>, faults: Chain, j: nat)
    requires Recorded(c, code, faults) && j < |faults|
    ensures Injected(c, code, faults, faults[j].time) ==
      (Patched(c.m, code, faults[j].address, faults[j].manipulated), faults)
    decreases |faults|
  {
    hide Injected, Patched, Refreshed, Recorded, Quiet, ValidFaults;
    var f, tail := faults[0], faults[1..];
    assert faults == [f] + tail;
    RecordedFront(c, code, faults);
    InjectedCons(c, code, f, tail, faults[j].time);
    if j == 0 {
      InjectedQuiet(c, Patched(c.m, code, f.address, f.manipulated), tail, f.time);
    } else {
      assert tail[j - 1] == faults[j];
      InjectedOne(c, code, tail, j - 1);
    }
  }

  /** Clean clocks at which no fault is due. */
  lemma {:induction false} ReplayQuiet(c: Campaign, s: State, code: seq<Byte>, faults: Chain, budget: nat, k: nat)
    requires KeepsEven(c.m) && s.cpu.pc % 2 == 0 && Recorded(c, code, faults)
    requires k <= budget && Runs(c.m, s, code, k)
    requires forall x | s.cpu.time <= x < s.cpu.time + k :: Quiet(faults, x)
    ensures Replayed(c, s, code, faults, budget) == Replayed(c, After(c.m, s, code, k), code, faults, budget - k)
    decreases k
  {
    hide Reverted, Injected, Recorded;
    if k > 0 {
      RecordedValid(c, code, faults);
      RevertedClean(c, code, faults, s.cpu.time);
      assert Quiet(faults, s.cpu.time);
      InjectedQuiet(c, code, faults, s.cpu.time);
      ReplayQuiet(c, Clock(c.m, s, code).state, code, faults, budget - 1, k - 1);
    }
  }

  lemma {:induction false} RecordedValid(c: Campaign, code: seq<Byte>, faults: Chain)
    requires Recorded(c, code, faults)
    ensures ValidFaults(c, code, faults)
  {
  }

  /** Once all faults lie in the past, the replay is the plain run. */
  lemma {:induction false} ReplayEnd(c: Campaign, s: State, code: seq<Byte>, faults: Chain, budget: nat)
    requires KeepsEven(c.m) && s.cpu.pc % 2 == 0 && Recorded(c, code, faults)
    requires forall i | 0 <= i < |faults| :: faults[i].time < s.cpu.time
    ensures ValidFaults(c, code, faults)
    ensures Replayed(c, s, code, faults, budget) == Exploits(Run(c.m, s, code, NO_END, budget), c.m)
    decreases budget
  {
    hide Reverted, Injected, Recorded;
    RecordedValid(c, code, faults);
    if budget > 0 {
      RevertedClean(c, code, faults, s.cpu.time);
      assert Quiet(faults, s.cpu.time);
      InjectedQuiet(c, code, faults, s.cpu.time);
      var t := Clock(c.m, s, code);
      if t.ret == Ok {
        ReplayEnd(c, t.state, code, faults, budget - 1);
      }
    }
  }

  /** The fetch behind a fault still sees the manipulated bytes when it is validated. */
  lemma {:induction false} ReplayPending(c: Campaign, s: State, code: seq<Byte>, faults: Chain, j: nat, budget: nat)
    requires Recorded(c, code, faults) && j < |faults| && s.cpu.time == faults[j].time + 1
    requires Fetchable(c.m, code, s.cpu.pc) || budget == 0
    ensures var patched := Patched(c.m, code, faults[j].address, faults[j].manipulated);
      ValidFaults(c, patched, faults) &&
      (Replayed(c, s, patched, faults, budget) <==>
        budget > 0 && Fetchable(c.m, patched, s.cpu.pc) && Replayed(c, s, code, faults, budget))
  {
    hide Injected;
    RevertedPending(c, code, faults, j);
    RevertedClean(c, code, faults, s.cpu.time);
  }

  /** The faulted clock: patched code, the list unchanged. */
  lemma {:induction false} ReplayFault(c: Campaign, s: State, code: seq<Byte>, faults: Chain, j: nat, budget: nat)
    requires Recorded(c, code, faults) && j < |faults| && s.cpu.time == faults[j].time
    requires budget > 0 && s.cpu.pc != NO_END && Fetchable(c.m, code, s.cpu.pc) && !Stops(c.m, s)
    ensures var patched := Patched(c.m, code, faults[j].address, faults[j].manipulated);
      var t := ExecuteStep(c.m, s, patched);
      ValidFaults(c, patched, faults) &&
      Replayed(c, s, code, faults, budget) == (t.ret == Ok && Replayed(c, t.state, patched, faults, budget - 1))
  {
    hide Reverted, Injected, ExecuteStep;
    RevertedClean(c, code, faults, s.cpu.time);
    InjectedOne(c, code, faults, j);
  }

  // ---- The theorem ------------------------------------------------------------------------------

  /** The state right behind fault `f` in a run that starts clean in `s`. */
  function Behind(c: Campaign, s: State, code: seq<Byte>, f: Fault): State {
    if s.cpu.time <= f.time && Contains(c.m.flashOffset, |code|, f.address, |f.manipulated|) &&
      Runs(c.m, s, code, f.time - s.cpu.time) then
      ExecuteStep(c.m, After(c.m, s, code, f.time - s.cpu.time), Patched(c.m, code, f.address, f.manipulated)).state
    else s
  }

  /** Every fetch directly behind a fault is still valid with the fault's bytes in place. */
  predicate RevertsInTime(c: Campaign, s: State, code: seq<Byte>, faults: Chain)
    decreases |faults|
  {
    faults == [] ||
    (var f := faults[0];
     var b := Behind(c, s, code, f);
     && Contains(c.m.flashOffset, |code|, f.address, |f.manipulated|)
     && Fetchable(c.m, Patched(c.m, code, f.address, f.manipulated), b.cpu.pc)
     && RevertsInTime(c, b, code, faults[1..]))
  }

  /** What the search guarantees about the part of a chain it adds from state `e` on. */
  ghost predicate AddedBy(c: Campaign, e: State, code: seq<Byte>, added: Chain) {
    && added != [] && Recorded(c, code, added)
    && forall i | 0 <= i < |added| :: e.cpu.time <= added[i].time
  }

  /** The shape of a successful trial: the clean clocks, the fault, and what its clock leads to. */
  lemma {:induction false} TrialFault(c: Campaign, level: nat, s: State, code: seq<Byte>, remaining: nat, chain: Chain,
                                      site: Site, iteration: nat, found: Chain)
      returns (f: Fault)
    requires c.Valid() && KeepsEven(c.m) && level < |c.plan| && InFlash(c.m, code, site) && site.size in {2, 4}
    requires !c.Active(level).permanent && s.cpu.pc % 2 == 0 && !Stops(c.m, s) && remaining > 0
    requires found in Trial(c, level, s, code, remaining, chain, site, iteration)
    ensures Fresh(c, code, f) && f.model == c.plan[level] && f.time == s.cpu.time && f.address == site.address
    ensures var t := ExecuteStep(c.m, s, Patched(c.m, code, f.address, f.manipulated));
      && t.ret == Ok && t.state.cpu.pc % 2 == 0 && t.state.cpu.time == s.cpu.time + 1
      && ((found == chain + [f] && Exploits(Run(c.m, t.state, code, NO_END, remaining - 1), c.m))
          || (level + 1 < |c.plan| && found in Search(c, level + 1, t.state, code, remaining - 1, chain + [f])))
  {
    hide Search, Visits;
    var blank := Blank(c, level, s.cpu.time, code, site, iteration);
    f := Applied(c.Active(level), blank);
    var patched := Patched(c.m, code, f.address, f.manipulated);
    var o := FaultedStep(c, s, code, f);
    StepOnce(c, s, patched);
  }

  lemma {:induction false} StepOnce(c: Campaign, s: State, code: seq<Byte>)
    requires KeepsEven(c.m) && s.cpu.pc % 2 == 0 && !Stops(c.m, s)
    ensures var o := Emulated(c.m, s, code, NO_END, 1);
      && o.ret != StopEmulationCalled
      && (o.ret == MaxInstructionsReached ==>
           && ExecuteStep(c.m, s, code) == Tick(o.state, Ok, true)
           && Aligned(o.state) == o.state && o.state.cpu.pc % 2 == 0)
  {
    assert Aligned(s) == s;
    var t := Clock(c.m, s, code);
    if t.ret == Ok {
      assert Run(c.m, t.state, code, NO_END, 0) == Outcome(t.state, MaxInstructionsReached, 0);
    }
  }

  /** One fault of the replay: everything before it lies in the past, `p` clean clocks lead up to it. */
  lemma {:induction false} ReplayOneFault(c: Campaign, e: State, code: seq<Byte>, r: nat, faults: Chain, j: nat, p: nat,
                                          site: Site)
    requires KeepsEven(c.m) && Recorded(c, code, faults) && j < |faults|
    requires InjectionPoint(c, e, code, r, p, site) && faults[j].time == e.cpu.time + p
    requires forall i | 0 <= i < j :: faults[i].time < e.cpu.time
    requires var f := faults[j];
      var t := ExecuteStep(c.m, After(c.m, Aligned(e), code, p), Patched(c.m, code, f.address, f.manipulated));
      t.ret == Ok && r - p - 1 > 0 && Fetchable(c.m, code, t.state.cpu.pc)
    ensures ValidFaults(c, code, faults)
    ensures var f := faults[j];
      var patched := Patched(c.m, code, f.address, f.manipulated);
      var b := Behind(c, Aligned(e), code, f);
      && b == ExecuteStep(c.m, After(c.m, Aligned(e), code, p), patched).state
      && (Replayed(c, Aligned(e), code, faults, r) <==>
           Fetchable(c.m, patched, b.cpu.pc) && Replayed(c, b, code, faults, r - p - 1))
  {
    hide Replayed, ExecuteStep, Clock, Fetchable, Refreshed;
    var s0 := Aligned(e);
    RecordedValid(c, code, faults);
    forall x | s0.cpu.time <= x < s0.cpu.time + p
      ensures Quiet(faults, x)
    {
    }
    ReplayQuiet(c, s0, code, faults, r, p);
    var s := After(c.m, s0, code, p);
    EvenAfter(c.m, s0, code, p);
    ReplayFault(c, s, code, faults, j, r - p);
    var t := ExecuteStep(c.m, s, Patched(c.m, code, faults[j].address, faults[j].manipulated));
    ReplayPending(c, t.state, code, faults, j, r - p - 1);
  }

  lemma {:induction false} RunFetches(m: Machine, s: State, code: seq<Byte>, max: nat)
    requires Run(m, s, code, NO_END, max).ret == StopEmulationCalled
    ensures max > 0 && Fetchable(m, code, s.cpu.pc)
  {
  }

  lemma {:induction false} FetchableFirst(c: Campaign, s: State, code: seq<Byte>, p: nat)
    requires Runs(c.m, s, code, p) && Fetchable(c.m, code, After(c.m, s, code, p).cpu.pc)
    ensures Fetchable(c.m, code, s.cpu.pc)
  {
  }

  /** What the search finds starts at a state that can be fetched, with clocks left. */
  lemma {:induction false} SearchFetchable(c: Campaign, level: nat, e: State, code: seq<Byte>, r: nat, chain: Chain,
                                           found: Chain)
    requires c.Valid() && KeepsEven(c.m) && level < |c.plan| && found in Search(c, level, e, code, r, chain)
    ensures r > 0 && Fetchable(c.m, code, Aligned(e).cpu.pc)
  {
    hide Search, Trial, Clock, Fetchable, Stops;
    var p, site, iteration := FoundInTrial(c, level, e, code, r, chain, found);
    FetchableFirst(c, Aligned(e), code, p);
  }

  /** What stands behind the fault `f` leads to the chain: it is complete and hits, or the next level finds it. */
  ghost predicate LeadsOn(c: Campaign, level: nat, t: State, code: seq<Byte>, r: nat, chain: Chain, f: Fault,
                          found: Chain)
    requires c.Valid() && level < |c.plan|
  {
    (found == chain + [f] && Exploits(Run(c.m, t, code, NO_END, r), c.m)) ||
    (level + 1 < |c.plan| && found in Search(c, level + 1, t, code, r, chain + [f]))
  }

  /** The next fault of a chain: `p` clean clocks lead up to it, and the fetch behind it succeeds on clean code. */
  lemma {:induction false} NextFault(c: Campaign, level: nat, e: State, code: seq<Byte>, r: nat, chain: Chain,
                                     found: Chain)
      returns (p: nat, site: Site, f: Fault)
    requires c.Valid() && KeepsEven(c.m) && level < |c.plan| && !c.Active(level).permanent
    requires found in Search(c, level, e, code, r, chain)
    ensures InjectionPoint(c, e, code, r, p, site)
    ensures Fresh(c, code, f) && f.model == c.plan[level] && f.time == e.cpu.time + p
    ensures var t := ExecuteStep(c.m, After(c.m, Aligned(e), code, p), Patched(c.m, code, f.address, f.manipulated));
      && t.ret == Ok && Aligned(t.state) == t.state && t.state.cpu.time == e.cpu.time + p + 1
      && r > p + 1 && Fetchable(c.m, code, t.state.cpu.pc)
      && LeadsOn(c, level, t.state, code, r - p - 1, chain, f, found)
  {
    hide Search, Trial, ExecuteStep, Clock, Fetchable, Stops, Fresh, Run, Patched;
    var iteration;
    p, site, iteration := FoundInTrial(c, level, e, code, r, chain, found);
    var s := After(c.m, Aligned(e), code, p);
    EvenAfter(c.m, Aligned(e), code, p);
    f := TrialFault(c, level, s, code, r - p, chain, site, iteration, found);
    FreshBytes(c, code, f);
    var t := ExecuteStep(c.m, s, Patched(c.m, code, f.address, f.manipulated)).state;
    if found == chain + [f] && Exploits(Run(c.m, t, code, NO_END, r - p - 1), c.m) {
      RunFetches(c.m, t, code, r - p - 1);
    } else {
      SearchFetchable(c, level + 1, t, code, r - p - 1, chain + [f], found);
    }
  }

  /** Every fetch directly behind a fault succeeds on the clean code. */
  predicate FetchesBehind(c: Campaign, s: State, code: seq<Byte>, faults: Chain)
    decreases |faults|
  {
    faults == [] ||
    (var f := faults[0];
     var b := Behind(c, s, code, f);
     && Contains(c.m.flashOffset, |code|, f.address, |f.manipulated|)
     && Fetchable(c.m, code, b.cpu.pc)
     && FetchesBehind(c, b, code, faults[1..]))
  }

  lemma {:induction false} BehindIs(c: Campaign, e: State, code: seq<Byte>, r: nat, p: nat, site: Site, f: Fault)
    requires InjectionPoint(c, e, code, r, p, site) && Fresh(c, code, f) && f.time == e.cpu.time + p
    ensures Contains(c.m.flashOffset, |code|, f.address, |f.manipulated|)
    ensures Behind(c, Aligned(e), code, f) ==
      ExecuteStep(c.m, After(c.m, Aligned(e), code, p), Patched(c.m, code, f.address, f.manipulated)).state
  {
    hide ExecuteStep, Fetchable, Stops, Patched, Refreshed;
    FreshBytes(c, code, f);
  }

  /** The search went on behind every fault, so it could fetch there. */
  lemma {:induction false} SearchFetches(c: Campaign, level: nat, e: State, code: seq<Byte>, r: nat, chain: Chain,
                                         found: Chain)
      returns (added: Chain)
    requires c.Valid() && KeepsEven(c.m) && level < |c.plan| && !c.Active(level).permanent
    requires found in Search(c, level, e, code, r, chain)
    ensures found == chain + added && added != [] && FetchesBehind(c, Aligned(e), code, added)
    decreases |c.plan| - level
  {
    hide Search, ExecuteStep, Fetchable, Fresh, Run, Patched, InjectionPoint, Behind;
    var p, site, f := NextFault(c, level, e, code, r, chain, found);
    BehindIs(c, e, code, r, p, site, f);
    var t := Behind(c, Aligned(e), code, f);
    var rest := [];
    if !(found == chain + [f] && Exploits(Run(c.m, t, code, NO_END, r - p - 1), c.m)) {
      rest := SearchFetches(c, level + 1, t, code, r - p - 1, chain + [f], found);
    }
    added := [f] + rest;
    assert found == chain + added && added[1..] == rest;
    assert Aligned(t) == t;
  }

  lemma {:induction false} FreshAlone(c: Campaign, code: seq<Byte>, base: Chain, f: Fault, time: nat)
    requires Recorded(c, code, base) && Fresh(c, code, f) && !c.library[f.model].permanent
    requires (forall i | 0 <= i < |base| :: base[i].time < time) && time <= f.time
    ensures Recorded(c, code, base + [f])
  {
    hide Fresh;
  }

  lemma {:induction false} AddedNext(c: Campaign, e: State, code: seq<Byte>, base: Chain, f: Fault, rest: Chain)
    requires Recorded(c, code, base + ([f] + rest)) && e.cpu.time <= f.time
    requires forall i | 0 <= i < |rest| :: e.cpu.time <= rest[i].time
    ensures AddedBy(c, e, code, [f] + rest)
  {
    hide Fresh;
    var added := [f] + rest;
    var all := base + added;
    assert forall i | 0 <= i < |added| :: all[|base| + i] == added[i];
  }

  lemma {:induction false} TimesBefore(base: Chain, f: Fault, time: nat)
    requires forall i | 0 <= i < |base| :: base[i].time < time
    requires f.time < time
    ensures forall i | 0 <= i < |base + [f]| :: (base + [f])[i].time < time
  {
  }

  /** Everything the search finds from a level on: `base` are the transient faults injected before. */
  lemma {:induction false} SearchReplays(c: Campaign, level: nat, e: State, code: seq<Byte>, r: nat, perms: Chain,
                                         base: Chain, found: Chain)
      returns (added: Chain)
    requires c.Valid() && KeepsEven(c.m) && level < |c.plan| && !c.Active(level).permanent
    requires Recorded(c, code, base) && forall i | 0 <= i < |base| :: base[i].time < e.cpu.time
    requires found in Search(c, level, e, code, r, perms + base)
    ensures found == perms + base + added && AddedBy(c, e, code, added) && Recorded(c, code, base + added)
    ensures r > 0 && Fetchable(c.m, code, Aligned(e).cpu.pc)
    ensures ValidFaults(c, code, base + added)
    ensures Replayed(c, Aligned(e), code, base + added, r) <==> RevertsInTime(c, Aligned(e), code, added)
    decreases |c.plan| - level
  {
    hide Search, Replayed, ExecuteStep, Fetchable, Fresh, Run, Patched, InjectionPoint, Behind, Recorded;
    SearchFetchable(c, level, e, code, r, perms + base, found);
    var p, site, f := NextFault(c, level, e, code, r, perms + base, found);
    BehindIs(c, e, code, r, p, site, f);
    var t := Behind(c, Aligned(e), code, f);
    FreshAlone(c, code, base, f, e.cpu.time);
    assert perms + base + [f] == perms + (base + [f]);
    TimesBefore(base, f, t.cpu.time);
    var rest := [];
    if found == perms + base + [f] && Exploits(Run(c.m, t, code, NO_END, r - p - 1), c.m) {
      assert base + [f] + [] == base + [f];
      ReplayEnd(c, t, code, base + [f], r - p - 1);
    } else {
      rest := SearchReplays(c, level + 1, t, code, r - p - 1, perms, base + [f], found);
    }
    added := [f] + rest;
    assert base + [f] + rest == base + added && perms + (base + [f]) + rest == perms + base + added;
    assert Aligned(t) == t && added[1..] == rest;
    ReplayOneFault(c, e, code, r, base + added, |base|, p, site);
    AddedNext(c, e, code, base, f, rest);
  }
}
