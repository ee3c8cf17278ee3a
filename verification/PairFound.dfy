/** A program that checks twice: only skipping both checks ends exploitable, and the search for two transient faults
    finds that pair.  The two checks stand at addresses 0 and 2, the guarded place at 4, and the place a failed check
    goes to at 6; the fault model overwrites an instruction by one that does nothing. */
module PairFound {
  import opened Processor
  import opened Faults
  import opened SearchSpec
  import ExactWalk
  import BruteForce

  const CHECKS := Machine(
    0x2000_0000,
    0,
    (s: State, code: seq<Byte>) =>
      if s.cpu.pc < 4 && s.cpu.pc < |code| && code[s.cpu.pc] == 0
      then Executed(s.cpu.(pc := if s.cpu.pc < 2 then 2 else 4), [], false)
      else Executed(s.cpu.(pc := 6), [], false),
    {4, 6},
    (s: State, a: Word) => if a == 4 then Exploitable else NotExploitable)

  const CHECK_CODE: seq<Byte> := [1, 0, 1, 0, 0, 0, 0, 0]
  const SKIP: Bytes4 := [0, 0, 0, 0]
  const SKIP_MODEL := Model(false, (f: Fault) => 1, (f: Fault) => true, (f: Fault) => SKIP)

  const PAIR := Campaign(CHECKS, Ignore([], []), [SKIP_MODEL], [0, 0], [],
                         (cpu: Cpu, a: Word, b: seq<Byte>) => true, (chain: Chain) => false)

  const FIRST := Fault(0, 0, 0, 0, 2, [1, 0], [0, 0])
  const SECOND := Fault(0, 1, 0, 2, 2, [1, 0], [0, 0])

  function At(pc: Word, time: nat): State {
    State(Cpu(pc, 0, [], time), [])
  }

  function Skipping(f: Fault): seq<Byte>
    requires f in [FIRST, SECOND]
  {
    Patched(CHECKS, CHECK_CODE, f.address, f.manipulated)
  }

  lemma {:induction false} Clean(pc: Word, time: nat)
    requires pc == 0 || pc == 2
    ensures PAIR.Valid() && KeepsEven(CHECKS) && Aligned(At(pc, time)) == At(pc, time)
    ensures Clock(CHECKS, At(pc, time), CHECK_CODE) == Tick(At(6, time + 1), Ok, true)
    ensures CollectedAt(CHECKS, PAIR.ignore, At(pc, time), CHECK_CODE) == [Site(pc, 2)]
    ensures CollectedAt(CHECKS, PAIR.ignore, At(6, time), CHECK_CODE) == []
    ensures Clock(CHECKS, At(6, time), CHECK_CODE) == Tick(At(6, time), StopEmulationCalled, false)
  {
  }

  lemma {:induction false} Ends(time: nat, max: nat)
    requires max > 0
    ensures !Exploits(Run(CHECKS, At(6, time), CHECK_CODE, NO_END, max), CHECKS)
    ensures Exploits(Run(CHECKS, At(4, time), CHECK_CODE, NO_END, max), CHECKS)
    ensures !Exploits(Run(CHECKS, At(2, time), CHECK_CODE, NO_END, max), CHECKS)
  {
    Clean(2, time);
  }

  lemma {:induction false} Skips()
    ensures Skipping(FIRST) == [0, 0, 1, 0, 0, 0, 0, 0] && Skipping(SECOND) == [1, 0, 0, 0, 0, 0, 0, 0]
    ensures Clock(CHECKS, At(0, 0), Skipping(FIRST)) == Tick(At(2, 1), Ok, true)
    ensures Clock(CHECKS, At(2, 1), Skipping(SECOND)) == Tick(At(4, 2), Ok, true)
  {
  }

  /** One instruction is collected from either check on. */
  lemma {:induction false} Exact(pc: Word, time: nat, budget: nat)
    requires (pc == 0 || pc == 2) && budget > 1
    ensures forall i | 0 <= i < |Sites(PAIR, At(pc, time), CHECK_CODE, budget)| ::
      ExactWalk.NoEarlierVisit(PAIR, At(pc, time), CHECK_CODE, budget, i)
  {
    hide Clock, CollectedAt, ExactWalk.NoEarlierVisit;
    Clean(pc, time);
    Clean(pc, time + 1);
    assert Collected(CHECKS, PAIR.ignore, At(6, time + 1), CHECK_CODE, NO_END, budget - 1) == [];
    assert Sites(PAIR, At(pc, time), CHECK_CODE, budget) == [Site(pc, 2)] + [];
    ExactWalk.OrderlyIsExact(PAIR, At(pc, time), CHECK_CODE, budget);
  }

  lemma {:induction false} Planned(level: nat)
    requires level < 2
    ensures PAIR.Valid() && PAIR.plan[level] == 0 && PAIR.library[0] == SKIP_MODEL
  {
  }

  lemma {:induction false} Blanks(f: Fault, b: Fault)
    requires b.iteration == 0
    ensures SKIP_MODEL.iterations(b) == 1 && SKIP_MODEL.isApplicable(b) && SKIP_MODEL.inject(b) == SKIP
    ensures f == FIRST ==> f.(manipulated := []) == Fault(0, 0, 0, 0, 2, [1, 0], [])
    ensures f == SECOND ==> f.(manipulated := []) == Fault(0, 1, 0, 2, 2, [1, 0], [])
  {
  }

  /** At either check the model's one iteration is the fault that skips it. */
  lemma {:induction false} DueThere(level: nat, f: Fault, chain: Chain)
    requires level < 2 && (f == FIRST || f == SECOND)
    ensures PAIR.Valid() && BruteForce.Due(PAIR, level, f.time, CHECK_CODE, chain, Site(f.address, 2), f)
  {
    Planned(level);
    Slices();
    var blank := Fault(0, f.time, 0, f.address, 2, CHECK_CODE[f.address..f.address + 2], []);
    Blanks(f, blank);
    assert f == blank.(manipulated := SKIP[..2]);
    assert !PAIR.redundant(chain + [f]);
  }

  lemma {:induction false} Slices()
    ensures CHECK_CODE[0..2] == [1, 0] && CHECK_CODE[2..4] == [1, 0] && SKIP[..2] == [0, 0]
    ensures FIRST.manipulated != FIRST.original && SECOND.manipulated != SECOND.original
  {
    assert FIRST.original[0] != FIRST.manipulated[0] && SECOND.original[0] != SECOND.manipulated[0];
  }

  lemma {:induction false} Instruction(pc: Word, time: nat)
    requires pc == 0 || pc == 2
    ensures Fetchable(CHECKS, CHECK_CODE, pc) && SizeAt(CHECKS, CHECK_CODE, pc) == 2
    ensures Runs(CHECKS, At(pc, time), CHECK_CODE, 0) && After(CHECKS, At(pc, time), CHECK_CODE, 0) == At(pc, time)
    ensures BruteForce.Considered(PAIR.ignore, pc, time)
  {
  }

  /** Where the fault lies, and that the run starts there. */
  lemma {:induction false} ReachedAtOnce(f: Fault, budget: nat)
    requires (f == FIRST || f == SECOND) && budget > 0
    ensures BruteForce.Reached(PAIR, At(f.address, f.time), CHECK_CODE, budget, f)
  {
    hide Clock;
    Clean(f.address, f.time);
  }

  lemma {:induction false} StrikesAtOnce(level: nat, f: Fault, budget: nat, chain: Chain)
    requires level < 2 && (f == FIRST || f == SECOND) && budget > 0
    requires forall g | g in chain :: g.model == 0
    ensures PAIR.Valid() && BruteForce.Reached(PAIR, At(f.address, f.time), CHECK_CODE, budget, f)
    ensures BruteForce.Strikes(PAIR, level, At(f.address, f.time), CHECK_CODE, budget, chain, f)
  {
    hide Clock, BruteForce.Due, Fetchable, SizeAt, BruteForce.Considered, Runs, After, BruteForce.Reached;
    Clean(f.address, f.time);
    Instruction(f.address, f.time);
    ReachedAtOnce(f, budget);
    DueThere(level, f, chain);
  }

  lemma {:induction false} FirstStrikes()
    ensures PAIR.Valid() && BruteForce.Reached(PAIR, At(0, 0), CHECK_CODE, 100, FIRST)
    ensures BruteForce.Strikes(PAIR, 0, At(0, 0), CHECK_CODE, 100, [], FIRST)
    ensures BruteForce.FaultedClock(PAIR, At(0, 0), CHECK_CODE, 100, FIRST) == Tick(At(2, 1), Ok, true)
  {
    hide Clock, BruteForce.Strikes, Runs, After, BruteForce.Reached, Patched;
    StrikesAtOnce(0, FIRST, 100, []);
    Clean(0, 0);
    Instruction(0, 0);
    Skips();
  }

  lemma {:induction false} SecondStrikes()
    ensures PAIR.Valid() && BruteForce.Reached(PAIR, At(2, 1), CHECK_CODE, 99, SECOND)
    ensures BruteForce.Strikes(PAIR, 1, At(2, 1), CHECK_CODE, 99, [FIRST], SECOND)
    ensures BruteForce.FaultedClock(PAIR, At(2, 1), CHECK_CODE, 99, SECOND) == Tick(At(4, 2), Ok, true)
  {
    hide Clock, BruteForce.Strikes, Runs, After, BruteForce.Reached, Patched;
    StrikesAtOnce(1, SECOND, 99, [FIRST]);
    Clean(2, 1);
    Instruction(2, 1);
    Skips();
  }

  /** The first skip alone leads to the second check and to the failed place. */
  lemma {:induction false} PairIsBrute()
    ensures PAIR.Valid()
    ensures BruteForce.BruteChain(PAIR, 1, At(2, 1), CHECK_CODE, 99, [FIRST], [SECOND])
    ensures BruteForce.BruteChain(PAIR, 0, At(0, 0), CHECK_CODE, 100, [], [FIRST, SECOND])
    ensures !BruteForce.BruteChain(PAIR, 0, At(0, 0), CHECK_CODE, 100, [], [FIRST])
  {
    hide Clock, Run, Runs, BruteForce.Strikes, BruteForce.FaultedClock, BruteForce.Reached;
    Ends(1, 99);
    Ends(2, 98);
    FirstStrikes();
    SecondStrikes();
    assert [FIRST, SECOND][1..] == [SECOND] && [] + [FIRST] == [FIRST];
  }

  lemma {:induction false} PairIsExact()
    ensures BruteForce.ExactAlong(PAIR, At(0, 0), CHECK_CODE, 100, [FIRST, SECOND])
    ensures BruteForce.ExactAlong(PAIR, At(0, 0), CHECK_CODE, 100, [FIRST])
  {
    hide Clock, Sites, ExactWalk.NoEarlierVisit, BruteForce.FaultedClock, BruteForce.Strikes;
    FirstStrikes();
    Exact(0, 0, 100);
    Exact(2, 1, 99);
    assert [FIRST, SECOND][1..] == [SECOND];
    assert BruteForce.ExactAlong(PAIR, At(2, 1), CHECK_CODE, 99, [SECOND]);
  }

  /** The search for two faults finds the pair, and the first skip alone is no finding. */
  lemma {:induction false} PairIsFound()
    ensures PAIR.Valid() && [FIRST, SECOND] in Search(PAIR, 0, At(0, 0), CHECK_CODE, 100, [])
    ensures [FIRST] !in Search(PAIR, 0, At(0, 0), CHECK_CODE, 100, [])
  {
    hide Search, BruteForce.BruteChain, BruteForce.ExactAlong;
    Clean(0, 0);
    PairIsBrute();
    PairIsExact();
    assert [] + [FIRST, SECOND] == [FIRST, SECOND] && [] + [FIRST] == [FIRST];
    BruteForce.SearchIsBruteForce(PAIR, 0, At(0, 0), CHECK_CODE, 100, [], [FIRST, SECOND]);
    BruteForce.SearchIsBruteForce(PAIR, 0, At(0, 0), CHECK_CODE, 100, [], [FIRST]);
  }
}
