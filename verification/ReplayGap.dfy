/** A pushed chain that the replay rejects.  The fault turns a four-byte instruction at the end of flash
    into a two-byte one; the next fetch, at the last halfword, is validated before the fault is taken
    back and sees the first half of an instruction that does not fit. */
module ReplayGap {
  import opened Processor
  import opened Faults
  import opened SearchSpec
  import opened Replay
  import MixedReplay
  import ReplayTheorem

  const GAP_MACHINE := Machine(
    0x2000_0000,
    0,
    (s: State, code: seq<Byte>) => Executed(s.cpu.(pc := 2), [], false),
    {2},
    (s: State, a: Word) => Exploitable)

  const CLEAN_CODE: seq<Byte> := [0x00, 0xE8, 0x00, 0x00]
  const FAULTY_CODE: Bytes4 := [0x00, 0x00, 0x00, 0xE8]

  const GAP_MODEL := Model(false, (f: Fault) => 1, (f: Fault) => true, (f: Fault) => FAULTY_CODE)

  const GAP := Campaign(GAP_MACHINE, Ignore([], []), [GAP_MODEL], [0], [],
                        (cpu: Cpu, a: Word, b: seq<Byte>) => true, (chain: Chain) => false)

  const GAP_START := State(Cpu(0, 0, [], 0), [])

  const GAP_FAULT := Fault(0, 0, 0, 0, 4, CLEAN_CODE, FAULTY_CODE)

  const GAP_NEXT := State(Cpu(2, 0, [], 1), [])

  /** Both versions of the code step from address 0 to address 2. */
  lemma {:induction false} GapClock(code: seq<Byte>)
    requires code == CLEAN_CODE || code == FAULTY_CODE
    ensures Clock(GAP.m, GAP_START, code) == Tick(GAP_NEXT, Ok, true) == ExecuteStep(GAP.m, GAP_START, code)
    ensures Aligned(GAP_START) == GAP_START && Aligned(GAP_NEXT) == GAP_NEXT
  {
  }

  /** At address 2 the clean code stops; the faulty code cannot even be fetched. */
  lemma {:induction false} GapEnd()
    ensures Clock(GAP.m, GAP_NEXT, CLEAN_CODE) == Tick(GAP_NEXT, StopEmulationCalled, false)
    ensures !Fetchable(GAP.m, FAULTY_CODE, 2)
    ensures Exploits(Run(GAP.m, GAP_NEXT, CLEAN_CODE, NO_END, 4), GAP.m)
  {
  }

  lemma {:induction false} GapSites()
    ensures Sites(GAP, GAP_START, CLEAN_CODE, 5) == [Site(0, 4)]
  {
    hide Clock, ExecuteStep;
    GapClock(CLEAN_CODE);
    GapEnd();
    assert CollectedAt(GAP.m, GAP.ignore, GAP_START, CLEAN_CODE) == [Site(0, 4)];
    assert CollectedAt(GAP.m, GAP.ignore, GAP_NEXT, CLEAN_CODE) == [];
    assert Collected(GAP.m, GAP.ignore, GAP_NEXT, CLEAN_CODE, NO_END, 4) == [];
    assert Collected(GAP.m, GAP.ignore, GAP_START, CLEAN_CODE, NO_END, 5) == [Site(0, 4)] + [];
  }

  lemma {:induction false} GapBytes()
    ensures GAP.Valid() && InFlash(GAP.m, CLEAN_CODE, Site(0, 4))
    ensures Blank(GAP, 0, 0, CLEAN_CODE, Site(0, 4), 0) == GAP_FAULT.(manipulated := [])
  {
    assert BytesAt(GAP.m, CLEAN_CODE, Site(0, 4)) == CLEAN_CODE;
  }

  lemma {:induction false} GapApplied()
    ensures Applied(GAP_MODEL, GAP_FAULT.(manipulated := [])) == GAP_FAULT
    ensures GAP_FAULT.manipulated != GAP_FAULT.original
  {
    assert FAULTY_CODE[..4] == FAULTY_CODE && CLEAN_CODE[1] != FAULTY_CODE[1];
  }

  lemma {:induction false} GapFault()
    ensures GAP.Valid() && InFlash(GAP.m, CLEAN_CODE, Site(0, 4))
    ensures var blank := Blank(GAP, 0, 0, CLEAN_CODE, Site(0, 4), 0);
      Applied(GAP.Active(0), blank) == GAP_FAULT && !Skipped(GAP, 0, [], blank)
    ensures Patched(GAP.m, CLEAN_CODE, 0, FAULTY_CODE) == FAULTY_CODE
    ensures Iterations(GAP, 0, 0, CLEAN_CODE, Site(0, 4)) == 1
  {
    hide Applied, Blank;
    GapBytes();
    GapApplied();
  }

  lemma {:induction false} GapStep()
    ensures Contains(GAP.m.flashOffset, |CLEAN_CODE|, GAP_FAULT.address, |GAP_FAULT.manipulated|)
    ensures FaultedStep(GAP, GAP_START, CLEAN_CODE, GAP_FAULT) == Outcome(GAP_NEXT, MaxInstructionsReached, 1)
  {
    hide Clock, ExecuteStep, Skipped, Iterations;
    GapFault();
    GapClock(FAULTY_CODE);
    assert Run(GAP.m, GAP_NEXT, FAULTY_CODE, NO_END, 0) == Outcome(GAP_NEXT, MaxInstructionsReached, 0);
  }

  lemma {:induction false} GapTrial()
    ensures GAP.Valid() && InFlash(GAP.m, CLEAN_CODE, Site(0, 4))
    ensures Trial(GAP, 0, GAP_START, CLEAN_CODE, 5, [], Site(0, 4), 0) == [[GAP_FAULT]]
  {
    hide Clock, ExecuteStep, Skipped, Run, FaultedStep, Applied, Iterations, Blank, Search;
    GapFault();
    GapStep();
    GapEnd();
    GapClock(CLEAN_CODE);
    assert [] + [GAP_FAULT] == [GAP_FAULT];
  }

  lemma {:induction false} GapVisit()
    ensures GAP.Valid() && Visit(GAP, 0, Position(GAP_START, 5), CLEAN_CODE, [], Site(0, 4)) == [[GAP_FAULT]]
  {
    hide Trial, Iterations;
    GapFault();
    GapTrial();
    assert !FaultedPermanently(GAP, [], 0);
    assert Trials(GAP, 0, GAP_START, CLEAN_CODE, 5, [], Site(0, 4), 0) == [];
    assert Trials(GAP, 0, GAP_START, CLEAN_CODE, 5, [], Site(0, 4), 1) == [] + [[GAP_FAULT]];
  }

  lemma {:induction false} GapSearch()
    ensures GAP.Valid() && [GAP_FAULT] in Search(GAP, 0, GAP_START, CLEAN_CODE, 5, [])
  {
    hide Visit, Sites, Clock;
    GapSites();
    GapVisit();
    GapClock(CLEAN_CODE);
    var sites := Sites(GAP, GAP_START, CLEAN_CODE, 5);
    assert Walk(GAP, GAP_START, CLEAN_CODE, 5, sites, -1) == Position(GAP_START, 5);
    assert Run(GAP.m, GAP_START, CLEAN_CODE, 0, 5) == Outcome(GAP_START, EndAddressReached, 0);
    assert Walk(GAP, GAP_START, CLEAN_CODE, 5, sites, 0) == Position(GAP_START, 5);
    VisitInVisits(GAP, 0, GAP_START, CLEAN_CODE, 5, [], UpTo(1), 0, [GAP_FAULT]);
  }

  /** The search pushes the chain; the replay does not confirm it. */
  lemma {:induction false} ReplayCanReject()
    ensures GAP.Valid() && KeepsEven(GAP.m)
    ensures [GAP_FAULT] in Search(GAP, 0, GAP_START, CLEAN_CODE, 5, [])
    ensures ValidFaults(GAP, CLEAN_CODE, [GAP_FAULT])
    ensures !Replayed(GAP, Aligned(GAP_START), CLEAN_CODE, [GAP_FAULT], 5)
  {
    hide Replayed, Search, Clock, Run;
    GapSearch();
    MixedReplay.PushedIffReplayed(GAP, GAP_START, CLEAN_CODE, 5, [GAP_FAULT]);
    GapClock(CLEAN_CODE);
    GapClock(FAULTY_CODE);
    GapEnd();
    GapFault();
    assert After(GAP.m, GAP_START, CLEAN_CODE, 0) == GAP_START;
    assert MixedReplay.PatchedBy(GAP, CLEAN_CODE, []) == CLEAN_CODE;
    assert MixedReplay.Leading(GAP, [GAP_FAULT]) == 0;
    assert ReplayTheorem.Behind(GAP, GAP_START, CLEAN_CODE, GAP_FAULT) == GAP_NEXT;
    assert [GAP_FAULT][..0] == [] && [GAP_FAULT][0..] == [GAP_FAULT];
  }
}
