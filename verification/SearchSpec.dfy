/** What the recursive search computes, as functions of the state on entry. */
module SearchSpec {
  import opened Processor
  import opened Faults

  /** Where the walk through the collected sites stands. */
  datatype Position = Position(state: State, remaining: int) {
    function Budget(): nat { if remaining < 0 then 0 else remaining }
  }

  /** The walk emulates from one collected address to the next; index -1 is the state on entry. */
  function Walk(c: Campaign, s: State, code: seq<Byte>, budget: nat, sites: seq<Site>, i: int): (p: Position)
    requires -1 <= i < |sites|
    ensures p.remaining <= budget && |p.state.ram| == |s.ram|
    decreases i + 1
  {
    if i == -1 then Position(s, budget)
    else
      var p := Walk(c, s, code, budget, sites, i - 1);
      var o := Emulated(c.m, p.state, code, sites[i].address, p.Budget());
      Position(o.state, p.remaining - o.steps)
  }

  function Sites(c: Campaign, s: State, code: seq<Byte>, budget: nat): seq<Site> {
    Collected(c.m, c.ignore, Aligned(s), code, NO_END, budget)
  }

  predicate Exploits(o: Outcome, m: Machine) {
    o.ret == StopEmulationCalled && m.evaluate(o.state, o.state.cpu.pc) == Exploitable
  }

  predicate FaultedPermanently(c: Campaign, chain: Chain, address: Word)
    requires c.Valid() && forall f | f in chain :: f.model < |c.library|
  {
    exists f | f in chain :: c.library[f.model].permanent && f.address == address
  }

  ghost predicate ValidChain(c: Campaign, chain: Chain) {
    forall f | f in chain :: f.model < |c.library|
  }

  /** The fault of one iteration before the model is applied. */
  function Blank(c: Campaign, level: nat, time: nat, code: seq<Byte>, site: Site, iteration: nat): Fault
    requires c.Valid() && level < |c.plan| && InFlash(c.m, code, site)
  {
    Fault(c.plan[level], time, iteration, site.address, site.size, BytesAt(c.m, code, site), [])
  }

  function Iterations(c: Campaign, level: nat, time: nat, code: seq<Byte>, site: Site): nat
    requires c.Valid() && level < |c.plan| && InFlash(c.m, code, site)
  {
    c.Active(level).iterations(Blank(c, level, time, code, site, 0))
  }

  /** Why an iteration is passed over: the tester rejects it, it changes nothing, or it is redundant. */
  predicate Skipped(c: Campaign, level: nat, chain: Chain, blank: Fault)
    requires c.Valid() && level < |c.plan| && blank.size in {2, 4}
  {
    var f := Applied(c.Active(level), blank);
    !c.Active(level).isApplicable(blank) || f.manipulated == f.original || c.redundant(chain + [f])
  }

  /** The faulted instruction runs alone, on patched code. */
  function FaultedStep(c: Campaign, s: State, code: seq<Byte>, f: Fault): Outcome
    requires Contains(c.m.flashOffset, |code|, f.address, |f.manipulated|)
  {
    Emulated(c.m, s, Patched(c.m, code, f.address, f.manipulated), NO_END, 1)
  }

  /** The run that starts with the faulted step `o` and goes on with clean code ends exploitable. */
  predicate Hits(c: Campaign, o: Outcome, code: seq<Byte>, remaining: nat) {
    Exploits(o, c.m) ||
    (o.ret == MaxInstructionsReached && remaining > 1 &&
     Exploits(Emulated(c.m, o.state, code, NO_END, remaining - 1), c.m))
  }

  /** One transient fault: the faulted instruction runs alone on patched code, the rest on clean code;
      a chain that is not exploitable is extended on the next level. */
  function Trial(c: Campaign, level: nat, s: State, code: seq<Byte>, remaining: nat, chain: Chain, site: Site,
                 iteration: nat): seq<Chain>
    requires c.Valid() && level < |c.plan| && InFlash(c.m, code, site) && site.size in {2, 4}
    decreases |c.plan| - level, 0, 0
  {
    var blank := Blank(c, level, s.cpu.time, code, site, iteration);
    if Skipped(c, level, chain, blank) then []
    else
      var f := Applied(c.Active(level), blank);
      var o := FaultedStep(c, s, code, f);
      if o.ret != StopEmulationCalled && o.ret != MaxInstructionsReached then []
      else if Hits(c, o, code, remaining) then [chain + [f]]
      else if level + 1 < |c.plan| && remaining > 2 && o.ret == MaxInstructionsReached then
        Search(c, level + 1, o.state, code, remaining - 1, chain + [f])
      else []
  }

  function Trials(c: Campaign, level: nat, s: State, code: seq<Byte>, remaining: nat, chain: Chain, site: Site,
                  upTo: nat): seq<Chain>
    requires c.Valid() && level < |c.plan| && InFlash(c.m, code, site) && site.size in {2, 4}
    decreases |c.plan| - level, 1, upTo
  {
    if upTo == 0 then []
    else
      var earlier := Trials(c, level, s, code, remaining, chain, site, upTo - 1);
      earlier + Trial(c, level, s, code, remaining, chain, site, upTo - 1)
  }

  /** Everything found by faulting one collected instruction. */
  function Visit(c: Campaign, level: nat, p: Position, code: seq<Byte>, chain: Chain, site: Site): seq<Chain>
    requires c.Valid() && level < |c.plan|
    decreases |c.plan| - level, 2, 0
  {
    if !InFlash(c.m, code, site) || site.size !in {2, 4} || p.remaining < 0 ||
       !(forall f | f in chain :: f.model < |c.library|)
      || FaultedPermanently(c, chain, site.address) then []
    else Trials(c, level, p.state, code, p.remaining, chain, site, Iterations(c, level, p.state.cpu.time, code, site))
  }

  /** The results of the first `n` tickets: a ticket is an index into the collected sites. */
  function Visits(c: Campaign, level: nat, s: State, code: seq<Byte>, budget: nat, chain: Chain,
                  tickets: seq<nat>): seq<Chain>
    requires c.Valid() && level < |c.plan|
    requires forall i | 0 <= i < |tickets| :: tickets[i] < |Sites(c, s, code, budget)|
    decreases |c.plan| - level, 3, |tickets|
  {
    if tickets == [] then []
    else
      var sites := Sites(c, s, code, budget);
      var t := tickets[|tickets| - 1];
      var earlier := Visits(c, level, s, code, budget, chain, tickets[..|tickets| - 1]);
      earlier + Visit(c, level, Walk(c, s, code, budget, sites, t), code, chain, sites[t])
  }

  lemma {:induction false} VisitsStep(c: Campaign, level: nat, s: State, code: seq<Byte>, budget: nat, chain: Chain,
                                      tickets: seq<nat>, n: nat)
    requires c.Valid() && level < |c.plan| && n < |tickets|
    requires forall i | 0 <= i < |tickets| :: tickets[i] < |Sites(c, s, code, budget)|
    ensures var sites := Sites(c, s, code, budget);
      Visits(c, level, s, code, budget, chain, tickets[..n + 1])
        == Visits(c, level, s, code, budget, chain, tickets[..n])
           + Visit(c, level, Walk(c, s, code, budget, sites, tickets[n]), code, chain, sites[tickets[n]])
  {
    hide Visit, Walk, Collected;
    assert tickets[..n + 1][..n] == tickets[..n];
  }

  function UpTo(n: nat): (r: seq<nat>)
    ensures |r| == n && forall i | 0 <= i < n :: r[i] == i
  {
    seq(n, i => i)
  }

  /** Levels above the first visit every collected instruction in order. */
  function Search(c: Campaign, level: nat, s: State, code: seq<Byte>, budget: nat, chain: Chain): seq<Chain>
    requires c.Valid() && level < |c.plan|
    decreases |c.plan| - level, 4, 0
  {
    Visits(c, level, s, code, budget, chain, UpTo(|Sites(c, s, code, budget)|))
  }

  /** A permanent fault changes the code for good.  On the last level the whole remaining run is judged;
      otherwise the next level searches on the patched code.  `found` is a chain this may push. */
  ghost predicate Pushed(c: Campaign, level: nat, s: State, code: seq<Byte>, remaining: nat, chain: Chain, found: Chain)
    requires c.Valid() && level < |c.plan|
    decreases |c.plan| - level, 5, 0
  {
    if !c.Active(level).permanent then found in Search(c, level, s, code, remaining, chain)
    else exists site: Site, iteration: nat :: PushedBy(c, level, s, code, remaining, chain, found, site, iteration)
  }

  ghost predicate PushedBy(c: Campaign, level: nat, s: State, code: seq<Byte>, remaining: nat, chain: Chain,
                           found: Chain, site: Site, iteration: nat)
    requires c.Valid() && level < |c.plan| && c.Active(level).permanent
    decreases |c.plan| - level, 4, 0
  {
    exists f: Fault :: Permitted(c, level, s, code, chain, site, iteration, f) &&
      var patched := Patched(c.m, code, f.address, f.manipulated);
      if level + 1 == |c.plan| then found == chain + [f] && Exploits(Emulated(c.m, s, patched, NO_END, remaining), c.m)
      else Pushed(c, level + 1, s, patched, remaining, chain + [f], found)
  }

  /** `f` is a fault the permanent model of the level injects at `site`. */
  ghost predicate Permitted(c: Campaign, level: nat, s: State, code: seq<Byte>, chain: Chain, site: Site,
                            iteration: nat, f: Fault)
    requires c.Valid() && level < |c.plan|
  {
    && site in c.sites && InFlash(c.m, code, site)
    && (forall x | x in chain :: x.address != site.address)
    && iteration < Iterations(c, level, s.cpu.time, code, site)
    && (var blank := Blank(c, level, s.cpu.time, code, site, iteration);
       !Skipped(c, level, chain, blank) && f == Applied(c.Active(level), blank))
  }

  /** `more` extends `faults` by chains that the level may push. */
  ghost predicate Extends(c: Campaign, level: nat, s: State, code: seq<Byte>, remaining: nat, chain: Chain,
                          faults: seq<Chain>, more: seq<Chain>)
    requires c.Valid() && level < |c.plan|
  {
    && faults <= more
    && forall i | |faults| <= i < |more| :: Pushed(c, level, s, code, remaining, chain, more[i])
  }

  lemma {:induction false} ExtendsTrans(c: Campaign, level: nat, s: State, code: seq<Byte>, remaining: nat,
                                        chain: Chain, x: seq<Chain>, y: seq<Chain>, z: seq<Chain>)
    requires c.Valid() && level < |c.plan|
    requires Extends(c, level, s, code, remaining, chain, x, y) && Extends(c, level, s, code, remaining, chain, y, z)
    ensures Extends(c, level, s, code, remaining, chain, x, z)
  {
    hide Pushed;
  }

  /** What a thread finds with its share of the indices is part of the whole search. */
  lemma {:induction false} VisitsInSearch(c: Campaign, level: nat, s: State, code: seq<Byte>, budget: nat, chain: Chain,
                                          tickets: seq<nat>, found: Chain)
    requires c.Valid() && level < |c.plan|
    requires forall i | 0 <= i < |tickets| :: tickets[i] < |Sites(c, s, code, budget)|
    requires found in Visits(c, level, s, code, budget, chain, tickets)
    ensures found in Search(c, level, s, code, budget, chain)
    decreases |tickets|
  {
    hide Visit, Walk, Sites;
    var sites := Sites(c, s, code, budget);
    var last := tickets[|tickets| - 1];
    if found in Visits(c, level, s, code, budget, chain, tickets[..|tickets| - 1]) {
      VisitsInSearch(c, level, s, code, budget, chain, tickets[..|tickets| - 1], found);
    } else {
      VisitInVisits(c, level, s, code, budget, chain, UpTo(|sites|), last, found);
    }
  }

  lemma {:induction false} TrialInTrials(c: Campaign, level: nat, s: State, code: seq<Byte>, remaining: nat,
                                         chain: Chain, site: Site, upTo: nat, iteration: nat, found: Chain)
    requires c.Valid() && level < |c.plan| && InFlash(c.m, code, site) && site.size in {2, 4} && iteration < upTo
    requires found in Trial(c, level, s, code, remaining, chain, site, iteration)
    ensures found in Trials(c, level, s, code, remaining, chain, site, upTo)
    decreases upTo
  {
    hide Trial;
    if iteration < upTo - 1 {
      TrialInTrials(c, level, s, code, remaining, chain, site, upTo - 1, iteration, found);
    }
  }

  lemma {:induction false} VisitInVisits(c: Campaign, level: nat, s: State, code: seq<Byte>, budget: nat, chain: Chain,
                                         tickets: seq<nat>, i: nat, found: Chain)
    requires c.Valid() && level < |c.plan| && i < |tickets|
    requires forall i | 0 <= i < |tickets| :: tickets[i] < |Sites(c, s, code, budget)|
    requires var sites := Sites(c, s, code, budget);
      found in Visit(c, level, Walk(c, s, code, budget, sites, tickets[i]), code, chain, sites[tickets[i]])
    ensures found in Visits(c, level, s, code, budget, chain, tickets)
    decreases |tickets|
  {
    hide Visit, Walk, Sites;
    if i < |tickets| - 1 {
      VisitInVisits(c, level, s, code, budget, chain, tickets[..|tickets| - 1], i, found);
    }
  }
}
