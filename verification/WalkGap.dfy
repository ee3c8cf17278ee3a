/** A trace that walking by address gets wrong: one instruction that branches to itself is collected at every
    clock, and the walk to its second execution ends at the first. */
module WalkGap {
  import opened Processor
  import opened Faults
  import opened SearchSpec
  import opened TraceWalk
  import ExactWalk

  const LOOP_MACHINE := Machine(
    0x2000_0000,
    0,
    (s: State, code: seq<Byte>) => Executed(s.cpu.(pc := 0), [], false),
    {},
    (s: State, a: Word) => Continue)

  const LOOP_CODE: seq<Byte> := [0xFE, 0xE7]

  const LOOP := Campaign(LOOP_MACHINE, Ignore([], []), [], [], [], (cpu: Cpu, a: Word, b: seq<Byte>) => true,
                         (chain: Chain) => false)

  function Spinning(time: nat): State {
    State(Cpu(0, 0, [], time), [])
  }

  lemma {:induction false} LoopClock(time: nat)
    ensures Clock(LOOP.m, Spinning(time), LOOP_CODE) == Tick(Spinning(time + 1), Ok, true)
    ensures CollectedAt(LOOP.m, LOOP.ignore, Spinning(time), LOOP_CODE) == [Site(0, 2)]
    ensures Aligned(Spinning(time)) == Spinning(time)
  {
  }

  lemma {:induction false} LoopSites()
    ensures Sites(LOOP, Spinning(0), LOOP_CODE, 2) == [Site(0, 2), Site(0, 2)]
    ensures SiteClock(LOOP, Spinning(0), LOOP_CODE, 2, 0) == 0 && SiteClock(LOOP, Spinning(0), LOOP_CODE, 2, 1) == 1
  {
    hide Clock, CollectedAt;
    LoopClock(0);
    LoopClock(1);
    LoopClock(2);
    var m, ig := LOOP.m, LOOP.ignore;
    assert Collected(m, ig, Spinning(2), LOOP_CODE, NO_END, 0) == [];
    assert Collected(m, ig, Spinning(1), LOOP_CODE, NO_END, 1) == [Site(0, 2)] + [];
    assert Collected(m, ig, Spinning(0), LOOP_CODE, NO_END, 2) == [Site(0, 2)] + [Site(0, 2)];
    assert Clocks(m, ig, Spinning(2), LOOP_CODE, 0, 2) == [];
    assert Clocks(m, ig, Spinning(1), LOOP_CODE, 1, 1) == [1] + [];
    assert Clocks(m, ig, Spinning(0), LOOP_CODE, 2, 0) == [0] + [1];
  }

  /** The second instruction of the trace ran at clock 1; the walk to it stands at clock 0. */
  lemma {:induction false} WalkStopsEarly()
    ensures KeepsEven(LOOP.m)
    ensures var sites := Sites(LOOP, Spinning(0), LOOP_CODE, 2);
      && |sites| == 2 && SiteClock(LOOP, Spinning(0), LOOP_CODE, 2, 1) == 1
      && Walk(LOOP, Spinning(0), LOOP_CODE, 2, sites, 1) == Position(Spinning(0), 2)
      && !ExactWalk.NoEarlierVisit(LOOP, Spinning(0), LOOP_CODE, 2, 1)
      && !ExactWalk.ExactAt(LOOP, Spinning(0), LOOP_CODE, 2, 1)
  {
    hide Clock, Sites, SiteClock;
    LoopSites();
    LoopClock(0);
    var sites := Sites(LOOP, Spinning(0), LOOP_CODE, 2);
    assert Run(LOOP.m, Spinning(0), LOOP_CODE, 0, 2) == Outcome(Spinning(0), EndAddressReached, 0);
    assert Walk(LOOP, Spinning(0), LOOP_CODE, 2, sites, -1) == Position(Spinning(0), 2);
    assert Walk(LOOP, Spinning(0), LOOP_CODE, 2, sites, 0) == Position(Spinning(0), 2);
    assert Runs(LOOP.m, Spinning(0), LOOP_CODE, 0);
  }
}
