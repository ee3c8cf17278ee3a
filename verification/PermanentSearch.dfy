/** What the search for permanent faults computes when decoding does not depend on the state of the CPU. */
module PermanentSearch {
  import opened Processor
  import opened Faults
  import opened SearchSpec

  /** The decoder's verdict on manipulated bytes does not depend on the state the CPU happens to be in. */
  ghost predicate OneVerdict(c: Campaign) {
    forall p: Cpu, q: Cpu, address: Word, bytes: seq<Byte> ::
      c.decodes(p, address, bytes) == c.decodes(q, address, bytes)
  }

  /** The patched code runs: on the last level the whole run is judged, otherwise the next level searches.  A
      model injected twice goes on behind the index. */
  function PermanentRun(c: Campaign, level: nat, s: State, patched: seq<Byte>, remaining: nat, chain: Chain,
                        index: nat): seq<Chain>
    requires c.Valid() && level < |c.plan|
    decreases |c.plan| - level, 0, 0
  {
    if level + 1 == |c.plan| then
      if Exploits(Emulated(c.m, s, patched, NO_END, remaining), c.m) then [chain] else []
    else
      FullSearch(c, level + 1, s, patched, remaining, chain,
                 if c.plan[level + 1] == c.plan[level] then index + 1 else 0)
  }

  /** One permanent fault at a static instruction. */
  function PermanentTrial(c: Campaign, level: nat, s: State, code: seq<Byte>, remaining: nat, chain: Chain, index: nat,
                          iteration: nat): seq<Chain>
    requires c.Valid() && level < |c.plan| && index < |c.sites| && InFlash(c.m, code, c.sites[index])
    decreases |c.plan| - level, 0, 1
  {
    var site := c.sites[index];
    var blank := Blank(c, level, s.cpu.time, code, site, iteration);
    var f := Applied(c.Active(level), blank);
    if Skipped(c, level, chain, blank) || !c.decodes(s.cpu, site.address, f.manipulated) then []
    else PermanentRun(c, level, s, Patched(c.m, code, f.address, f.manipulated), remaining, chain + [f], index)
  }

  function PermanentTrials(c: Campaign, level: nat, s: State, code: seq<Byte>, remaining: nat, chain: Chain, index: nat,
                           upTo: nat): seq<Chain>
    requires c.Valid() && level < |c.plan| && index < |c.sites| && InFlash(c.m, code, c.sites[index])
    decreases |c.plan| - level, 1, upTo
  {
    if upTo == 0 then []
    else
      PermanentTrials(c, level, s, code, remaining, chain, index, upTo - 1) +
      PermanentTrial(c, level, s, code, remaining, chain, index, upTo - 1)
  }

  /** Everything found by faulting one static instruction, unless the chain hit its address before. */
  function PermanentVisit(c: Campaign, level: nat, s: State, code: seq<Byte>, remaining: nat, chain: Chain,
                          index: nat): seq<Chain>
    requires c.Valid() && level < |c.plan| && index < |c.sites|
    decreases |c.plan| - level, 2, 0
  {
    var site := c.sites[index];
    if !InFlash(c.m, code, site) || (exists f | f in chain :: f.address == site.address) then []
    else PermanentTrials(c, level, s, code, remaining, chain, index, Iterations(c, level, s.cpu.time, code, site))
  }

  function PermanentVisits(c: Campaign, level: nat, s: State, code: seq<Byte>, remaining: nat, chain: Chain,
                           tickets: seq<nat>): seq<Chain>
    requires c.Valid() && level < |c.plan|
    requires forall i | 0 <= i < |tickets| :: tickets[i] < |c.sites|
    decreases |c.plan| - level, 3, |tickets|
  {
    if tickets == [] then []
    else
      var n := |tickets| - 1;
      PermanentVisits(c, level, s, code, remaining, chain, tickets[..n]) +
        PermanentVisit(c, level, s, code, remaining, chain, tickets[n])
  }

  /** The indices from `from` on. */
  function Range(from: nat, n: nat): (r: seq<nat>)
    ensures |r| == (if from < n then n - from else 0) && forall i | 0 <= i < |r| :: r[i] == from + i && r[i] < n
  {
    seq(if from < n then n - from else 0, i requires i >= 0 => from + i)
  }

  /** The search of a level, whatever its model: permanent faults from an index on, transient ones along the
      trace. */
  function FullSearch(c: Campaign, level: nat, s: State, code: seq<Byte>, remaining: nat, chain: Chain,
                      from: nat): seq<Chain>
    requires c.Valid() && level < |c.plan|
    decreases |c.plan| - level, 5, 0
  {
    if c.Active(level).permanent then PermanentVisits(c, level, s, code, remaining, chain, Range(from, |c.sites|))
    else Search(c, level, s, code, remaining, chain)
  }

  lemma {:induction false} PermanentVisitsStep(c: Campaign, level: nat, s: State, code: seq<Byte>, remaining: nat,
                                               chain: Chain, tickets: seq<nat>, n: nat)
    requires c.Valid() && level < |c.plan| && n < |tickets|
    requires forall i | 0 <= i < |tickets| :: tickets[i] < |c.sites|
    ensures PermanentVisits(c, level, s, code, remaining, chain, tickets[..n + 1]) ==
      PermanentVisits(c, level, s, code, remaining, chain, tickets[..n]) +
        PermanentVisit(c, level, s, code, remaining, chain, tickets[n])
  {
    hide PermanentVisit;
    assert tickets[..n + 1][..n] == tickets[..n];
  }

  /** Where a chain found by permanent faults comes from. */
  lemma {:induction false} FromPermanentVisits(c: Campaign, level: nat, s: State, code: seq<Byte>, remaining: nat,
                                               chain: Chain, tickets: seq<nat>, found: Chain)
    returns (index: nat, iteration: nat)
    requires c.Valid() && level < |c.plan|
    requires forall i | 0 <= i < |tickets| :: tickets[i] < |c.sites|
    requires found in PermanentVisits(c, level, s, code, remaining, chain, tickets)
    ensures index in tickets && index < |c.sites| && InFlash(c.m, code, c.sites[index])
    ensures forall f | f in chain :: f.address != c.sites[index].address
    ensures iteration < Iterations(c, level, s.cpu.time, code, c.sites[index])
    ensures found in PermanentTrial(c, level, s, code, remaining, chain, index, iteration)
    decreases |tickets|
  {
    hide PermanentTrial, PermanentTrials, Iterations;
    var n := |tickets| - 1;
    if found in PermanentVisit(c, level, s, code, remaining, chain, tickets[n]) {
      index := tickets[n];
      iteration := FromPermanentTrials(c, level, s, code, remaining, chain, index,
                                       Iterations(c, level, s.cpu.time, code, c.sites[index]), found);
    } else {
      index, iteration := FromPermanentVisits(c, level, s, code, remaining, chain, tickets[..n], found);
    }
  }

  lemma {:induction false} FromPermanentTrials(c: Campaign, level: nat, s: State, code: seq<Byte>, remaining: nat,
                                               chain: Chain, index: nat, upTo: nat, found: Chain)
    returns (iteration: nat)
    requires c.Valid() && level < |c.plan| && index < |c.sites| && InFlash(c.m, code, c.sites[index])
    requires found in PermanentTrials(c, level, s, code, remaining, chain, index, upTo)
    ensures iteration < upTo && found in PermanentTrial(c, level, s, code, remaining, chain, index, iteration)
    decreases upTo
  {
    hide PermanentTrial;
    if found in PermanentTrial(c, level, s, code, remaining, chain, index, upTo - 1) {
      iteration := upTo - 1;
    } else {
      iteration := FromPermanentTrials(c, level, s, code, remaining, chain, index, upTo - 1, found);
    }
  }

  /** And that everything found this way is found. */
  lemma {:induction false} IntoPermanentVisits(c: Campaign, level: nat, s: State, code: seq<Byte>, remaining: nat,
                                               chain: Chain, tickets: seq<nat>, i: nat, iteration: nat, found: Chain)
    requires c.Valid() && level < |c.plan| && i < |tickets|
    requires forall i | 0 <= i < |tickets| :: tickets[i] < |c.sites|
    requires InFlash(c.m, code, c.sites[tickets[i]])
    requires forall f | f in chain :: f.address != c.sites[tickets[i]].address
    requires iteration < Iterations(c, level, s.cpu.time, code, c.sites[tickets[i]])
    requires found in PermanentTrial(c, level, s, code, remaining, chain, tickets[i], iteration)
    ensures found in PermanentVisits(c, level, s, code, remaining, chain, tickets)
    decreases |tickets|
  {
    hide PermanentTrial, PermanentTrials, Iterations;
    var n := |tickets| - 1;
    if i == n {
      IntoPermanentTrials(c, level, s, code, remaining, chain, tickets[n],
                          Iterations(c, level, s.cpu.time, code, c.sites[tickets[n]]), iteration, found);
    } else {
      IntoPermanentVisits(c, level, s, code, remaining, chain, tickets[..n], i, iteration, found);
    }
  }

  lemma {:induction false} IntoPermanentTrials(c: Campaign, level: nat, s: State, code: seq<Byte>, remaining: nat,
                                               chain: Chain, index: nat, upTo: nat, iteration: nat, found: Chain)
    requires c.Valid() && level < |c.plan| && index < |c.sites| && InFlash(c.m, code, c.sites[index])
    requires iteration < upTo && found in PermanentTrial(c, level, s, code, remaining, chain, index, iteration)
    ensures found in PermanentTrials(c, level, s, code, remaining, chain, index, upTo)
    decreases upTo
  {
    hide PermanentTrial;
    if iteration < upTo - 1 {
      IntoPermanentTrials(c, level, s, code, remaining, chain, index, upTo - 1, iteration, found);
    }
  }

  /** The full search finds only chains that may be pushed. */
  lemma {:induction false} FoundIsPushed(c: Campaign, level: nat, s: State, code: seq<Byte>, remaining: nat,
                                         chain: Chain, from: nat, found: Chain)
    requires c.Valid() && level < |c.plan| && found in FullSearch(c, level, s, code, remaining, chain, from)
    ensures Pushed(c, level, s, code, remaining, chain, found)
    decreases |c.plan| - level
  {
    hide Search, Skipped, Iterations, Run, PermanentVisits;
    if c.Active(level).permanent {
      var index, iteration := FromPermanentVisits(c, level, s, code, remaining, chain, Range(from, |c.sites|), found);
      var site := c.sites[index];
      var f := Applied(c.Active(level), Blank(c, level, s.cpu.time, code, site, iteration));
      assert Permitted(c, level, s, code, chain, site, iteration, f);
      var patched := Patched(c.m, code, f.address, f.manipulated);
      if level + 1 < |c.plan| {
        FoundIsPushed(c, level + 1, s, patched, remaining, chain + [f],
                      if c.plan[level + 1] == c.plan[level] then index + 1 else 0, found);
      }
      assert PushedBy(c, level, s, code, remaining, chain, found, site, iteration);
    }
  }
}
