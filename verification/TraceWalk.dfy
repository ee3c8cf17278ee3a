/** Walking the collected trace by address: where the walk stands, and when it is exact. */
module TraceWalk {
  import opened Processor
  import opened Faults
  import opened SearchSpec

  /** The clock numbers of the collected instructions, in step with `Collected`. */
  function Clocks(m: Machine, ig: Ignore, s: State, code: seq<Byte>, max: nat, at: nat): (r: seq<nat>)
    ensures |r| == |Collected(m, ig, s, code, NO_END, max)|
    decreases max
  {
    if max == 0 || s.cpu.pc == NO_END then []
    else
      var t := Clock(m, s, code);
      var rest := if t.ret == Ok then Clocks(m, ig, t.state, code, max - 1, at + 1) else [];
      if CollectedAt(m, ig, s, code) == [] then rest else [at] + rest
  }

  /** Instruction `i` of the trace is the one fetched after `k` clocks. */
  ghost predicate IsCollected(m: Machine, ig: Ignore, s: State, code: seq<Byte>, max: nat, k: nat, site: Site) {
    && k < max && Runs(m, s, code, k)
    && CollectedAt(m, ig, After(m, s, code, k), code) == [site]
  }

  lemma {:induction false} CollectedLater(m: Machine, ig: Ignore, s: State, code: seq<Byte>, max: nat, k: nat,
                                          site: Site)
    requires max > 0 && Clock(m, s, code).ret == Ok
    requires IsCollected(m, ig, Clock(m, s, code).state, code, max - 1, k, site)
    ensures IsCollected(m, ig, s, code, max, k + 1, site)
  {
  }

  lemma {:induction false} CollectedFirst(m: Machine, ig: Ignore, s: State, code: seq<Byte>, max: nat, at: nat)
    requires |Collected(m, ig, s, code, NO_END, max)| > 0 && |CollectedAt(m, ig, s, code)| > 0
    ensures Clocks(m, ig, s, code, max, at)[0] == at
    ensures IsCollected(m, ig, s, code, max, 0, Collected(m, ig, s, code, NO_END, max)[0])
  {
    hide Clock, CollectedAt;
    assert After(m, s, code, 0) == s;
  }

  lemma {:induction false} CollectedTail(m: Machine, ig: Ignore, s: State, code: seq<Byte>, max: nat, at: nat, i: nat)
    requires |CollectedAt(m, ig, s, code)| <= i < |Collected(m, ig, s, code, NO_END, max)|
    ensures max > 0 && Clock(m, s, code).ret == Ok
    ensures var (t, j) := (Clock(m, s, code).state, i - |CollectedAt(m, ig, s, code)|);
      && j < |Collected(m, ig, t, code, NO_END, max - 1)|
      && Collected(m, ig, s, code, NO_END, max)[i] == Collected(m, ig, t, code, NO_END, max - 1)[j]
      && Clocks(m, ig, s, code, max, at)[i] == Clocks(m, ig, t, code, max - 1, at + 1)[j]
  {
    hide Clock, CollectedAt, Collected, Clocks;
    CollectedOn(m, ig, s, code, max);
    CollectedCons(m, ig, s, code, max, at);
  }

  lemma {:induction false} CollectedOn(m: Machine, ig: Ignore, s: State, code: seq<Byte>, max: nat)
    requires |CollectedAt(m, ig, s, code)| < |Collected(m, ig, s, code, NO_END, max)|
    ensures max > 0 && s.cpu.pc != NO_END && Clock(m, s, code).ret == Ok
  {
    hide Clock, CollectedAt;
  }

  lemma {:induction false} CollectedCons(m: Machine, ig: Ignore, s: State, code: seq<Byte>, max: nat, at: nat)
    requires max > 0 && s.cpu.pc != NO_END && Clock(m, s, code).ret == Ok
    ensures var t, first := Clock(m, s, code).state, CollectedAt(m, ig, s, code);
      && Collected(m, ig, s, code, NO_END, max) == first + Collected(m, ig, t, code, NO_END, max - 1)
      && Clocks(m, ig, s, code, max, at) == (if first == [] then [] else [at]) + Clocks(m, ig, t, code, max - 1, at + 1)
  {
    hide Clock, CollectedAt;
  }

  lemma {:induction false} CollectedWhen(m: Machine, ig: Ignore, s: State, code: seq<Byte>, max: nat, at: nat, i: nat)
    returns (k: nat)
    requires i < |Collected(m, ig, s, code, NO_END, max)|
    ensures Clocks(m, ig, s, code, max, at)[i] == at + k
    ensures IsCollected(m, ig, s, code, max, k, Collected(m, ig, s, code, NO_END, max)[i])
    decreases max
  {
    hide Clock, CollectedAt, Collected, Clocks, IsCollected;
    if i < |CollectedAt(m, ig, s, code)| {
      CollectedFirst(m, ig, s, code, max, at);
      k := 0;
    } else {
      CollectedTail(m, ig, s, code, max, at, i);
      var t, j := Clock(m, s, code).state, i - |CollectedAt(m, ig, s, code)|;
      k := CollectedWhen(m, ig, t, code, max - 1, at + 1, j);
      CollectedLater(m, ig, s, code, max, k, Collected(m, ig, t, code, NO_END, max - 1)[j]);
      k := k + 1;
    }
  }

  ghost predicate Increasing(r: seq<nat>, at: nat) {
    (forall i | 0 <= i < |r| :: at <= r[i]) && (forall i, j | 0 <= i < j < |r| :: r[i] < r[j])
  }

  lemma {:induction false} ClocksIncrease(m: Machine, ig: Ignore, s: State, code: seq<Byte>, max: nat, at: nat)
    ensures Increasing(Clocks(m, ig, s, code, max, at), at)
    decreases max
  {
    hide Clock, CollectedAt, Collected;
    if max != 0 && s.cpu.pc != NO_END && Clock(m, s, code).ret == Ok {
      var rest := Clocks(m, ig, Clock(m, s, code).state, code, max - 1, at + 1);
      ClocksIncrease(m, ig, Clock(m, s, code).state, code, max - 1, at + 1);
      assert Increasing(rest, at + 1);
      assert Increasing([at] + rest, at);
    }
  }

  /** The first of the clocks 0..k at which the program counter is `target`. */
  function FirstVisit(m: Machine, s: State, code: seq<Byte>, target: Word, k: nat): (p: nat)
    requires Runs(m, s, code, k) && After(m, s, code, k).cpu.pc == target
    ensures p <= k && Runs(m, s, code, p) && After(m, s, code, p).cpu.pc == target
    ensures forall q | 0 <= q < p :: Runs(m, s, code, q) && After(m, s, code, q).cpu.pc != target
    decreases k
  {
    if s.cpu.pc == target then 0 else 1 + FirstVisit(m, Clock(m, s, code).state, code, target, k - 1)
  }

  lemma {:induction false} RunsSplit(m: Machine, s: State, code: seq<Byte>, p: nat, n: nat)
    requires Runs(m, s, code, p)
    ensures Runs(m, s, code, p + n) <==> Runs(m, After(m, s, code, p), code, n)
    ensures Runs(m, s, code, p + n) ==> After(m, s, code, p + n) == After(m, After(m, s, code, p), code, n)
    decreases p
  {
    if p > 0 {
      RunsSplit(m, Clock(m, s, code).state, code, p - 1, n);
    }
  }

  lemma {:induction false} RunsPrefix(m: Machine, s: State, code: seq<Byte>, p: nat, n: nat)
    requires p <= n && Runs(m, s, code, n)
    ensures Runs(m, s, code, p)
    decreases p
  {
    if p > 0 {
      RunsPrefix(m, Clock(m, s, code).state, code, p - 1, n - 1);
    }
  }

  lemma {:induction false} EvenAfter(m: Machine, s: State, code: seq<Byte>, p: nat)
    requires KeepsEven(m) && s.cpu.pc % 2 == 0 && Runs(m, s, code, p)
    ensures Aligned(After(m, s, code, p)) == After(m, s, code, p)
    decreases p
  {
    if p > 0 {
      EvenAfter(m, Clock(m, s, code).state, code, p - 1);
    }
  }

  /** Emulating towards an address that is reached within the budget ends at its first visit. */
  lemma {:induction false} RunToFirstVisit(m: Machine, s: State, code: seq<Byte>, target: Word, max: nat, k: nat)
    requires k < max && Runs(m, s, code, k) && After(m, s, code, k).cpu.pc == target
    ensures var p := FirstVisit(m, s, code, target, k);
      Run(m, s, code, target, max) == Outcome(After(m, s, code, p), EndAddressReached, p)
    decreases k
  {
    if s.cpu.pc != target {
      RunToFirstVisit(m, Clock(m, s, code).state, code, target, max - 1, k - 1);
    }
  }

  /** The clock number at which the walk stands after reaching site `i`. */
  ghost predicate StandsAt(c: Campaign, s: State, code: seq<Byte>, budget: nat, i: int, p: nat)
    requires -1 <= i < |Sites(c, s, code, budget)|
  {
    var w := Walk(c, s, code, budget, Sites(c, s, code, budget), i);
    && Runs(c.m, Aligned(s), code, p)
    && Aligned(w.state) == After(c.m, Aligned(s), code, p)
    && (i >= 0 ==> w.state == Aligned(w.state))
    && w.remaining == budget - p
  }

  /** The clock of site `i`; index -1 stands for the start. */
  function SiteClock(c: Campaign, s: State, code: seq<Byte>, budget: nat, i: int): nat
    requires -1 <= i < |Sites(c, s, code, budget)|
  {
    if i == -1 then 0 else Clocks(c.m, c.ignore, Aligned(s), code, budget, 0)[i]
  }

  lemma {:induction false} SiteIsCollected(c: Campaign, s: State, code: seq<Byte>, budget: nat, i: nat)
    requires i < |Sites(c, s, code, budget)|
    ensures IsCollected(c.m, c.ignore, Aligned(s), code, budget, SiteClock(c, s, code, budget, i),
                        Sites(c, s, code, budget)[i])
    ensures i > 0 ==> SiteClock(c, s, code, budget, i - 1) < SiteClock(c, s, code, budget, i)
    ensures SiteClock(c, s, code, budget, i - 1) <= SiteClock(c, s, code, budget, i)
  {
    hide Clock, CollectedAt, Collected, Clocks, Runs, After;
    var k := CollectedWhen(c.m, c.ignore, Aligned(s), code, budget, 0, i);
    ClocksIncrease(c.m, c.ignore, Aligned(s), code, budget, 0);
  }

  lemma {:induction false} VisitsFrom(m: Machine, s: State, code: seq<Byte>, target: Word, p: nat, k: nat, max: nat)
    returns (q: nat)
    requires p <= k < max && Runs(m, s, code, k) && After(m, s, code, k).cpu.pc == target
    ensures p <= q <= k && Runs(m, s, code, p) && Runs(m, s, code, q) && After(m, s, code, q).cpu.pc == target
    ensures Run(m, After(m, s, code, p), code, target, max - p) ==
      Outcome(After(m, s, code, q), EndAddressReached, q - p)
    ensures forall x | p <= x < q :: Runs(m, s, code, x) && After(m, s, code, x).cpu.pc != target
  {
    hide Clock, Run, Runs, After;
    RunsPrefix(m, s, code, p, k);
    RunsSplit(m, s, code, p, k - p);
    var sp := After(m, s, code, p);
    var d := FirstVisit(m, sp, code, target, k - p);
    q := p + d;
    RunsSplit(m, s, code, p, d);
    RunToFirstVisit(m, sp, code, target, max - p, k - p);
    forall x | p <= x < q
      ensures Runs(m, s, code, x) && After(m, s, code, x).cpu.pc != target
    {
      RunsPrefix(m, s, code, x, k);
      RunsSplit(m, s, code, p, x - p);
    }
  }

  /** One leg of the walk: from clock `p`, not past site `i`, to the first visit of its address. */
  lemma {:induction false} WalkLeg(c: Campaign, s: State, code: seq<Byte>, budget: nat, i: nat, p: nat) returns (q: nat)
    requires KeepsEven(c.m) && i < |Sites(c, s, code, budget)|
    requires StandsAt(c, s, code, budget, i - 1, p) && p <= SiteClock(c, s, code, budget, i)
    ensures p <= q <= SiteClock(c, s, code, budget, i) && StandsAt(c, s, code, budget, i, q)
    ensures var sites := Sites(c, s, code, budget);
      var w := Walk(c, s, code, budget, sites, i - 1);
      && w.remaining > 0
      && Emulated(c.m, w.state, code, sites[i].address, w.remaining).ret == EndAddressReached
      && After(c.m, Aligned(s), code, q).cpu.pc == sites[i].address
    ensures forall x | p <= x < q ::
      Runs(c.m, Aligned(s), code, x) && After(c.m, Aligned(s), code, x).cpu.pc != Sites(c, s, code, budget)[i].address
  {
    hide Clock, Collected, Clocks, Run, Runs, After;
    var site := Sites(c, s, code, budget)[i];
    var s0 := Aligned(s);
    SiteIsCollected(c, s, code, budget, i);
    var k := SiteClock(c, s, code, budget, i);
    q := VisitsFrom(c.m, s0, code, site.address, p, k, budget);
    EvenAfter(c.m, s0, code, q);
    var w := Walk(c, s, code, budget, Sites(c, s, code, budget), i - 1);
    var o := Emulated(c.m, w.state, code, site.address, w.remaining);
    assert o == Outcome(After(c.m, s0, code, q), EndAddressReached, q - p);
    assert Walk(c, s, code, budget, Sites(c, s, code, budget), i) == Position(o.state, w.remaining - o.steps);
  }

  /** The walk never gets stuck: before every site it stands at some clock not past the site's own, with
      the instructions already executed taken off the budget. */
  lemma {:induction false} WalkStands(c: Campaign, s: State, code: seq<Byte>, budget: nat, i: int) returns (p: nat)
    requires KeepsEven(c.m) && -1 <= i < |Sites(c, s, code, budget)|
    ensures StandsAt(c, s, code, budget, i, p) && p <= SiteClock(c, s, code, budget, i)
    decreases i + 1
  {
    if i == -1 {
      p := 0;
    } else {
      var p0 := WalkStands(c, s, code, budget, i - 1);
      SiteIsCollected(c, s, code, budget, i);
      p := WalkLeg(c, s, code, budget, i, p0);
    }
  }

  /** From any site, the walk to the next one ends there with budget to spare. */
  lemma {:induction false} WalkContinues(c: Campaign, s: State, code: seq<Byte>, budget: nat, i: nat)
    requires KeepsEven(c.m) && i < |Sites(c, s, code, budget)|
    ensures var sites := Sites(c, s, code, budget);
      var w := Walk(c, s, code, budget, sites, i - 1);
      var o := Emulated(c.m, w.state, code, sites[i].address, w.Budget());
      w.remaining > 0 && o.ret == EndAddressReached && w.remaining - o.steps > 0
  {
    var p := WalkStands(c, s, code, budget, i - 1);
    SiteIsCollected(c, s, code, budget, i);
    var q := WalkLeg(c, s, code, budget, i, p);
  }

  /** A collected instruction lies in flash and has two or four bytes. */
  lemma {:induction false} SiteFits(c: Campaign, s: State, code: seq<Byte>, budget: nat, i: nat)
    requires i < |Sites(c, s, code, budget)|
    ensures var site := Sites(c, s, code, budget)[i]; InFlash(c.m, code, site) && site.size in {2, 4}
  {
    SiteIsCollected(c, s, code, budget, i);
  }
}
