/** When walking by address is exact. */
module ExactWalk {
  import opened Processor
  import opened Faults
  import opened SearchSpec
  import opened TraceWalk

  /** Between the previous site's clock and its own, the address of site `i` is not visited. */
  ghost predicate NoEarlierVisit(c: Campaign, s: State, code: seq<Byte>, budget: nat, i: nat)
    requires i < |Sites(c, s, code, budget)|
  {
    forall x: nat | SiteClock(c, s, code, budget, i - 1) <= x < SiteClock(c, s, code, budget, i) &&
      Runs(c.m, Aligned(s), code, x) ::
      After(c.m, Aligned(s), code, x).cpu.pc != Sites(c, s, code, budget)[i].address
  }

  /** The walk stands before site `i` exactly at the clock at which it was collected. */
  ghost predicate ExactAt(c: Campaign, s: State, code: seq<Byte>, budget: nat, i: int)
    requires -1 <= i < |Sites(c, s, code, budget)|
  {
    StandsAt(c, s, code, budget, i, SiteClock(c, s, code, budget, i))
  }

  lemma {:induction false} ExactStep(c: Campaign, s: State, code: seq<Byte>, budget: nat, i: nat)
    requires KeepsEven(c.m) && i < |Sites(c, s, code, budget)| && ExactAt(c, s, code, budget, i - 1)
    ensures ExactAt(c, s, code, budget, i) <==> NoEarlierVisit(c, s, code, budget, i)
  {
    hide Clock, Collected, Clocks, Walk;
    SiteIsCollected(c, s, code, budget, i);
    var q := WalkLeg(c, s, code, budget, i, SiteClock(c, s, code, budget, i - 1));
    assert StandsAt(c, s, code, budget, i, q);
  }

  lemma {:induction false} ExactUpTo(c: Campaign, s: State, code: seq<Byte>, budget: nat, i: int)
    requires KeepsEven(c.m) && -1 <= i < |Sites(c, s, code, budget)|
    requires forall j | 0 <= j <= i :: NoEarlierVisit(c, s, code, budget, j)
    ensures forall j | -1 <= j <= i :: ExactAt(c, s, code, budget, j)
    decreases i + 1
  {
    hide Clock, Collected, Clocks, NoEarlierVisit, SiteClock, Sites;
    if i == -1 {
      ExactStart(c, s, code, budget);
    } else {
      ExactUpTo(c, s, code, budget, i - 1);
      ExactStep(c, s, code, budget, i);
    }
  }

  lemma {:induction false} ExactStart(c: Campaign, s: State, code: seq<Byte>, budget: nat)
    ensures ExactAt(c, s, code, budget, -1)
  {
  }

  /** The walk is exact at every site if and only if no site's address is visited too early. */
  lemma {:induction false} WalkExactIff(c: Campaign, s: State, code: seq<Byte>, budget: nat)
    requires KeepsEven(c.m)
    ensures var n := |Sites(c, s, code, budget)|;
      (forall i | 0 <= i < n :: ExactAt(c, s, code, budget, i)) <==>
        (forall i | 0 <= i < n :: NoEarlierVisit(c, s, code, budget, i))
  {
    hide Clock, Collected, Clocks, NoEarlierVisit, ExactAt;
    var n := |Sites(c, s, code, budget)|;
    if forall i | 0 <= i < n :: NoEarlierVisit(c, s, code, budget, i) {
      ExactUpTo(c, s, code, budget, n - 1);
    }
    if forall i | 0 <= i < n :: ExactAt(c, s, code, budget, i) {
      ExactStart(c, s, code, budget);
      forall i | 0 <= i < n
        ensures NoEarlierVisit(c, s, code, budget, i)
      {
        assert i == 0 || ExactAt(c, s, code, budget, i - 1);
        ExactStep(c, s, code, budget, i);
      }
    }
  }

  // ---- A condition on the trace that is easy to check -------------------------------------------

  lemma {:induction false} ClocksFront(m: Machine, ig: Ignore, s: State, code: seq<Byte>, max: nat, at: nat)
    requires max > 0 && s.cpu.pc != NO_END
    ensures var t := Clock(m, s, code);
      Clocks(m, ig, s, code, max, at) ==
        (if CollectedAt(m, ig, s, code) == [] then [] else [at]) +
        if t.ret == Ok then Clocks(m, ig, t.state, code, max - 1, at + 1) else []
  {
    hide CollectedAt, Collected, Clock;
  }

  /** Every collecting clock is the clock of some site. */
  lemma {:induction false} ClockInClocks(m: Machine, ig: Ignore, s: State, code: seq<Byte>, max: nat, at: nat, k: nat)
    returns (i: nat)
    requires KeepsEven(m) && s.cpu.pc % 2 == 0 && k < max && Runs(m, s, code, k)
    requires CollectedAt(m, ig, After(m, s, code, k), code) != []
    ensures i < |Clocks(m, ig, s, code, max, at)| && Clocks(m, ig, s, code, max, at)[i] == at + k
    decreases k
  {
    hide CollectedAt, Collected, Clock, Clocks;
    ClocksFront(m, ig, s, code, max, at);
    if k == 0 {
      i := 0;
    } else {
      var t := Clock(m, s, code).state;
      EvenAfter(m, s, code, 1);
      i := ClockInClocks(m, ig, t, code, max - 1, at + 1, k - 1);
      if CollectedAt(m, ig, s, code) != [] {
        i := i + 1;
      }
    }
  }

  lemma {:induction false} SiteOfClock(c: Campaign, s: State, code: seq<Byte>, budget: nat, k: nat) returns (i: nat)
    requires KeepsEven(c.m) && k < budget && Runs(c.m, Aligned(s), code, k)
    requires CollectedAt(c.m, c.ignore, After(c.m, Aligned(s), code, k), code) != []
    ensures i < |Sites(c, s, code, budget)| && SiteClock(c, s, code, budget, i) == k
  {
    i := ClockInClocks(c.m, c.ignore, Aligned(s), code, budget, 0, k);
  }

  lemma {:induction false} ClocksOrdered(c: Campaign, s: State, code: seq<Byte>, budget: nat, i: int, j: int)
    requires -1 <= i <= j < |Sites(c, s, code, budget)|
    ensures SiteClock(c, s, code, budget, i) <= SiteClock(c, s, code, budget, j)
    ensures 0 <= i < j ==> SiteClock(c, s, code, budget, i) < SiteClock(c, s, code, budget, j)
  {
    ClocksIncrease(c.m, c.ignore, Aligned(s), code, budget, 0);
  }

  /** Consecutive collected addresses differ, and once time-ignored the run stays time-ignored. */
  ghost predicate Orderly(c: Campaign, s: State, code: seq<Byte>, budget: nat) {
    && (var sites := Sites(c, s, code, budget); forall i | 0 < i < |sites| :: sites[i - 1].address != sites[i].address)
    && (forall a: nat, b: nat | s.cpu.time <= a <= b < s.cpu.time + budget ::
          TimeIgnored(c.ignore, a) ==> TimeIgnored(c.ignore, b))
  }

  /** An uncollected clock in front of a site runs at another address. */
  lemma {:induction false} SkippedClock(c: Campaign, s: State, code: seq<Byte>, budget: nat, i: nat, x: nat)
    requires KeepsEven(c.m) && Orderly(c, s, code, budget) && i < |Sites(c, s, code, budget)|
    requires SiteClock(c, s, code, budget, i - 1) <= x < SiteClock(c, s, code, budget, i)
    requires Runs(c.m, Aligned(s), code, x)
    requires i > 0 ==> x != SiteClock(c, s, code, budget, i - 1)
    ensures After(c.m, Aligned(s), code, x).cpu.pc != Sites(c, s, code, budget)[i].address
  {
    hide Sites, SiteClock, Collected, Clocks, ExecuteStep, Fetchable, Stops;
    var s0 := Aligned(s);
    SiteIsCollected(c, s, code, budget, i);
    var k := SiteClock(c, s, code, budget, i);
    var at := After(c.m, s0, code, x);
    if CollectedAt(c.m, c.ignore, at, code) != [] {
      var j := SiteOfClock(c, s, code, budget, x);
      if j < i {
        ClocksOrdered(c, s, code, budget, j, i - 1);
      } else {
        ClocksOrdered(c, s, code, budget, i, j);
      }
      assert false;
    }
    RunsSplit(c.m, s0, code, x, k - x);
    assert Clock(c.m, at, code).ticked && Ignored(c.ignore, at.cpu);
    var there := After(c.m, s0, code, k);
    assert !Ignored(c.ignore, there.cpu) && there.cpu.pc == Sites(c, s, code, budget)[i].address;
    assert at.cpu.time == s.cpu.time + x && there.cpu.time == s.cpu.time + k;
  }

  /** In an orderly trace the walk is exact. */
  lemma {:induction false} OrderlyIsExact(c: Campaign, s: State, code: seq<Byte>, budget: nat)
    requires KeepsEven(c.m) && Orderly(c, s, code, budget)
    ensures forall i | 0 <= i < |Sites(c, s, code, budget)| ::
      NoEarlierVisit(c, s, code, budget, i) && ExactAt(c, s, code, budget, i)
  {
    hide Sites, SiteClock, Collected, Clocks, ExactAt, Clock, StandsAt, CollectedAt;
    forall i | 0 <= i < |Sites(c, s, code, budget)|
      ensures NoEarlierVisit(c, s, code, budget, i)
    {
      forall x: nat | SiteClock(c, s, code, budget, i - 1) <= x < SiteClock(c, s, code, budget, i) &&
        Runs(c.m, Aligned(s), code, x)
        ensures After(c.m, Aligned(s), code, x).cpu.pc != Sites(c, s, code, budget)[i].address
      {
        if i > 0 && x == SiteClock(c, s, code, budget, i - 1) {
          PreviousSite(c, s, code, budget, i);
        } else {
          SkippedClock(c, s, code, budget, i, x);
        }
      }
    }
    WalkExactIff(c, s, code, budget);
  }

  lemma {:induction false} PreviousSite(c: Campaign, s: State, code: seq<Byte>, budget: nat, i: nat)
    requires 0 < i < |Sites(c, s, code, budget)| && Orderly(c, s, code, budget)
    ensures Runs(c.m, Aligned(s), code, SiteClock(c, s, code, budget, i - 1))
    ensures After(c.m, Aligned(s), code, SiteClock(c, s, code, budget, i - 1)).cpu.pc !=
      Sites(c, s, code, budget)[i].address
  {
    hide Clock, Collected, Clocks, Run, Runs, After, Fetchable;
    SiteIsCollected(c, s, code, budget, i - 1);
  }
}
