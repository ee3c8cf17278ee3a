# Verified models of ARMORY, M-ulator and their case studies

ARMORY searches exhaustively for faults that make a program on a small ARM processor do something it
should not. It runs the program on the emulator M-ulator, collects a trace, injects a fault at every point
of it, runs on, and recurses for combinations of faults. Around the search stand the tools its case studies
use: two scripts that harden assembly code against skipped instructions and against diverted control flow,
a block cipher to attack, and a small `printf` for the emulated programs.

This project states what these programs promise and proves it of models that follow them branch by branch.
Loops over state are methods with invariants, proved equal to functions; the properties are lemmas about
those functions. `dafny verify dfyconfig.toml` covers the whole project.

## What is modelled

**The emulator and its snapshots** (`Processor`, `DirtySpans`, `SnapshotRuns`, `Emulation`). One clock is a
deterministic function of registers, RAM, code bytes and time; decoding and executing are parameters. A
snapshot copies only the bytes inside two intervals that its write hook extends. With one snapshot for each
level of recursion and restores that bypass the hooks, every level can still be restored to its last backup,
after any run; the one thing needed is that RAM does not end at the top of the address space.

**The search for instruction faults** (`Faults`, `SearchSpec`, `PermanentSearch`, `TraceWalk`, `Simulator`). The
search is a class over the emulator's arrays; recursive functions say which chains of transient and permanent
faults it finds. Code bytes are conserved on every path, and the early exits the source marks as errors are
unreachable. For permanent faults this needs that the decoder's verdict on manipulated bytes does not depend on
the state the CPU happens to be in.

**The replay** (`Replay`, `Tracer`, `ReplayTheorem`, `MixedReplay`, `ReplayConfirmed`, `ReplayGap`). The tracer
replays a list of faults from scratch, the simple form of the search. What the search pushes, the replay
confirms, if and only if each fetch behind a fault still succeeds on the manipulated bytes, which the search has
put back by then. Faults that leave the last halfword of flash alone cannot fail this, so chains of such
transient faults are always confirmed; an example shows what a fault in that halfword can do.

**Brute force and threads** (`ExactWalk`, `WalkGap`, `BruteForce`, `PermanentBruteForce`, `PairFound`, `Threads`).
Walking the trace by address can stop too early, as an example shows; exactly when it does not is stated. Where it
does not, the search of any order equals brute force: the chains it finds are described by runs on clean and on
patched code alone. Any interleaving of any number of threads drawing indices from the shared counter computes the
same results.

**Register faults** (`RegisterSearch`, `RegisterSimulator`, `RegisterBruteForce`, `RegisterReplay`,
`RegisterReplayTheorem`, `RegisterAgreement`, `RegisterReplayGaps`). This search walks by instruction count,
which is always exact, so a search of any order is brute force for every trace. It injects before the end test and
takes back behind the instruction, the replay does both in its fetch hook behind the end test; so the replay need
not confirm what the search pushes. Exactly when it does is stated for all registers and all exploitability models:
the tests behind the faults decide. Without faults of the program counter it comes down to the last one. Three
examples show the ways to fail.

**The plan of a campaign and what it remembers** (`InjectionPlan`, `KnownFaults`, `ThreadedPlan`, `Redundancy`,
`Choosing`). The plan lists which models are injected together; results of smaller entries prune larger ones by
way of a hash index. The plan is exact, the memory of the campaign meets what the index needs, the index decides
in-order inclusion, and pruning loses nothing, whatever the threads that search the entries do.

**The replacement pass** (`Thumb`, `Replayable`, `RepeatedOperations`, `SpareOperations`, `CodeAddresses`,
`SkipTolerance` and the modules named `Replacement...`). A step semantics of a Thumb-like instruction set on
instructions rather than text, with code addresses as values of their own so that a program and its rewritten
form can be compared. The pass is a method over a list of lines; its output does what the source does, and goes
on doing so when instructions are skipped; `ReplacementCoverage` says which lines may be. `ReplacementLimits`
says, for every instruction outside the replaceable ones, exactly when its replacement does the same;
`ReplacementSimulation` and `ReplacementBlocks` say it of IT blocks: conditions must come out as they did at the IT
instruction, and the lines with its condition must come first.

**The control-flow pass** (`FlowGraph`, `SignaturePass`, `ExclusiveOr` and the modules named `Control...`).
Predecessors, pruning, signatures, and the checks placed in the code, down to the lines written. A run of these
lines does what the run of the source does and reports no error, as long as each block entered has one
predecessor or the register D is loaded on the way; that its edges are known and never pruned is proved. What an
illegal jump needs to pass is stated exactly, and so is when an edge of the program itself is reported, which
happens.

**Semantics the others rest on** (`Residues`, `Arithmetic`, `BlockTransfers`): remainders, carry chains,
conditions, and block transfers with 32-bit arithmetic. **Formatted output and the cipher** (`Printf`,
`PrintfRoundTrip`, `PrintfFormats`, `Aes`, `AesTable`, `AesInverse`, `AesKeys`).

Where the code and its comments differ, the models follow the code. The script of the replacement pass calls the
operations it repeats idempotent; the two-operand forms of additions, subtractions and the like are not, and the
model repeats them all the same. The control-flow script names signatures that must not be zero but compares a
string with a number, so zero is not excluded; the model does not exclude it either, and nothing needs it. LDM with
writeback leaves its base one word short when PC is loaded, unlike POP. `printf` makes room for the prefix of a
base by dropping the characters that fill the field, which may be digits of the number, and drops a sign or prefix
for which its buffer of 32 characters has no room.

## Model

| member | source | states |
|---|---|---|
| `Processor.Clock` | code/subprojects/m-ulator/src/emulator_base.cpp:674-755 | one clock leaves the state alone unless an instruction was executed, then time is one later; a fetch that fails and an end address reached stop before anything happens; RAM keeps its size |
| `Processor.ClockIs` | code/subprojects/m-ulator/src/emulator_base.cpp:674-755 | what can neither be fetched nor decoded fails, an end address that is judged either way stops, and anything else executes: its stores reach RAM in order, registers and time move on |
| `Processor.FetchableIff` | code/subprojects/m-ulator/src/emulator_base.cpp:674-720 | an instruction can be fetched if and only if its first halfword, and of a long one its second too, lies in flash |
| `Processor.StoredIs` | code/subprojects/m-ulator/src/emulator_base.cpp:1080-1171 | one, two or four bytes that lie in RAM are written, any other store changes nothing |
| `Processor.Run` | code/subprojects/m-ulator/src/emulator_base.cpp:606-638 | the loop of `emulate` never runs more clocks than its budget, never ends with the code for "go on", and time advances by exactly the clocks it ran |
| `Processor.EmulatedIs` | code/subprojects/m-ulator/src/emulator_base.cpp:606-638 | emulation starts from the program counter with its low bit cleared |
| `Processor.RunIs` | code/subprojects/m-ulator/src/emulator_base.cpp:606-638 | every run is a number of clocks that succeed away from the end address, ended by the budget, by the end address, or by a clock that does not succeed, which counts if it executed |
| `Processor.SizeByHalfword` | code/subprojects/m-ulator/src/instruction_decoder.cpp:37-47 | an instruction has four bytes if and only if its first halfword, low byte first, is at least 0xE800 |
| `DirtySpans.MarkedTracks` | code/subprojects/armory/src/snapshot.cpp:87-130 | after a store both intervals lie in RAM and whatever RAM byte the store changed, or an earlier one did, lies in one of them |
| `DirtySpans.MarkedAllTracks` | code/subprojects/armory/src/snapshot.cpp:87-130 | the same for any sequence of stores, accepted or not, with any stack pointer at each |
| `DirtySpans.MarkedIsHull` | code/subprojects/armory/src/snapshot.cpp:87-130 | the intervals are no larger than needed: each is the smallest one that contains the bytes of the accepted stores on its side of eighty bytes below the stack pointer |
| `DirtySpans.SpansSoundIffNoWrap` | code/subprojects/armory/src/snapshot.cpp:87-130 | the intervals never lose a store if and only if RAM ends below the top of the address space |
| `DirtySpans.NestedObserved` | code/subprojects/armory/src/snapshot.cpp:87-130 | emulation keeps the snapshots of all levels up to the current one usable: outside its intervals every copy equals the next inner one, the innermost equals RAM |
| `DirtySpans.NestedBackup` | code/subprojects/armory/src/snapshot.cpp:33-60 | a backup, complete or incremental, makes the copy of its level equal to RAM and leaves the outer levels usable |
| `DirtySpans.NestedRestore` | code/subprojects/armory/src/snapshot.cpp:62-85 | a restore, which runs no write hooks and so is not seen by the other snapshots, leaves the outer levels usable |
| `DirtySpans.NestedShrink` | code/subprojects/armory/src/snapshot.cpp:22-85 | leaving inner levels leaves the outer ones usable |
| `SnapshotRuns.StepFaithful` | code/subprojects/armory/src/snapshot.cpp:22-130 | each of emulation, entering a level, backup and restore keeps: every level in use can be restored to the state of its last backup; a restore does so |
| `SnapshotRuns.RestoreAfterAnyRun` | code/subprojects/armory/src/snapshot.cpp:22-130 | after any interleaving of these steps, restoring any level in use brings CPU and all of RAM to that level's last backup |
| `Emulation.CopyBytes` | code/subprojects/m-ulator/src/emulator_base.cpp:571-599 | copies a range between two buffers and changes nothing else |
| `Emulation.CopySpan` | code/subprojects/armory/src/snapshot.cpp:43-54 | of the destination exactly the bytes the interval names are replaced |
| `Emulation.Snapshot.Reset` | code/subprojects/armory/src/snapshot.cpp:22-31 | both intervals empty, no copy any more |
| `Emulation.Snapshot.OnMemoryWrite` | code/subprojects/armory/src/snapshot.cpp:87-130 | the new intervals are the specified ones, including wrap-around of the stack boundary and of the interval end |
| `Emulation.Snapshot.Backup` | code/subprojects/armory/src/snapshot.cpp:33-60 | copying only the marked bytes gives a complete copy when the unmarked ones agreed |
| `Emulation.Snapshot.Restore` | code/subprojects/armory/src/snapshot.cpp:62-85 | all of RAM equals the copy and the saved CPU state is returned; without a copy nothing changes |
| `Emulation.Emulator.Backup` | code/subprojects/armory/src/snapshot.cpp:33-60 | the level's copy becomes the current state, the other levels unchanged |
| `Emulation.Emulator.Restore` | code/subprojects/armory/src/snapshot.cpp:62-85 | CPU and RAM become the level's copy, only its own intervals are emptied |
| `Emulation.Emulator.Reset` | code/subprojects/armory/src/snapshot.cpp:22-31 | only the level's snapshot loses its copy |
| `Emulation.Emulator.WriteFlash` | code/subprojects/m-ulator/src/emulator_base.cpp:586-599 | patches the code bytes, leaving CPU and RAM |
| `Emulation.Emulator.RunWriteHooks` | code/subprojects/armory/src/snapshot.cpp:87-130 | every snapshot marks the store |
| `Emulation.Emulator.WriteMemoryInternal` | code/subprojects/m-ulator/src/emulator_base.cpp:1080-1171 | an accepted store changes RAM and is marked by every snapshot, a rejected one does nothing |
| `Emulation.Emulator.DetectEndOfExecution` | code/subprojects/armory/src/fault_simulator.cpp:324-345 | emulation is stopped and the decision recorded exactly at end addresses the exploitability model does not wave through |
| `Emulation.Emulator.InstructionCollector` | code/subprojects/armory/src/simulate_instruction_fault.cpp:16-43 | an instruction is collected unless one of the ignored ranges, of memory or of time, contains it |
| `Emulation.Emulator.Execute` | code/subprojects/m-ulator/src/emulator_base.cpp:707-819 | the stores of an instruction one after the other, each marked, then the new CPU state |
| `Emulation.Emulator.DecodeAndExecute` | code/subprojects/m-ulator/src/emulator_base.cpp:707-819 | the clock behind the fetch hooks computes the specified step and collects the instruction if it decodes |
| `Emulation.Emulator.ClockCpu` | code/subprojects/m-ulator/src/emulator_base.cpp:707-819 | one clock computes the specified one: state, return code, emulated time, decision, collected instruction |
| `Emulation.Emulator.Emulate` | code/subprojects/m-ulator/src/emulator_base.cpp:606-638 | the loop computes the specified run: end state, return code, number of clocks, decision and collected instructions; all snapshots observe it |
| `TraceWalk.CollectedWhen` | code/subprojects/armory/src/simulate_instruction_fault.cpp:45-62 | the i-th collected instruction was executed at the i-th recorded clock |
| `TraceWalk.ClocksIncrease` | code/subprojects/armory/src/simulate_instruction_fault.cpp:45-62 | collected instructions belong to strictly increasing clocks |
| `TraceWalk.RunToFirstVisit` | code/subprojects/m-ulator/src/emulator_base.cpp:606-638 | emulating towards an address reached within the budget ends at the first visit of that address, after as many clocks as that takes |
| `TraceWalk.WalkLeg` | code/subprojects/armory/src/simulate_instruction_fault.cpp:113-130 | one leg of the walk ends at the first visit of its address not before where it starts |
| `TraceWalk.WalkStands` | code/subprojects/armory/src/simulate_instruction_fault.cpp:109-135 | after walking to a collected instruction the emulator is in a state of the original run, not later than that instruction, and the remaining cycles are the budget minus the clocks to there |
| `TraceWalk.WalkContinues` | code/subprojects/armory/src/simulate_instruction_fault.cpp:116-130 | the walk always ends at its address with cycles to spare: the early returns and the throw are unreachable |
| `TraceWalk.SiteFits` | code/subprojects/armory/src/simulate_instruction_fault.cpp:16-43 | a collected instruction lies in flash and has two or four bytes |
| `SearchSpec.VisitsStep` | code/subprojects/armory/src/simulate_instruction_fault.cpp:75-136 | one more index adds what is found at that index, nothing else |
| `SearchSpec.VisitsInSearch` | code/subprojects/armory/src/simulate_instruction_fault.cpp:75-107 | what a thread finds with its share of indices is part of the sequential search |
| `Faults.PatchUndone` | code/subprojects/armory/src/simulate_instruction_fault.cpp:192-240 | writing the original bytes over a patch restores the code |
| `Simulator.FaultSimulator.BuildFault` | code/subprojects/armory/src/simulate_instruction_fault.cpp:152-187 | the fault of one iteration, and whether it is passed over: not applicable, without effect, or redundant |
| `Simulator.FaultSimulator.Inject` | code/subprojects/armory/src/simulate_instruction_fault.cpp:189-197 | the restored state runs one step on patched code; only the patched bytes differ |
| `Simulator.FaultSimulator.Judge` | code/subprojects/armory/src/simulate_instruction_fault.cpp:189-217 | whether the fault leads to an exploitable end within the remaining cycles; the code bytes are as before on every path |
| `Simulator.FaultSimulator.Deepen` | code/subprojects/armory/src/simulate_instruction_fault.cpp:218-240 | a fault that ran one clock is searched further on the next level, with one cycle less and clean code |
| `Simulator.FaultSimulator.TryInstructionFault` | code/subprojects/armory/src/simulate_instruction_fault.cpp:149-242 | one iteration adds the specified chains; code, outer snapshots and the level's saved state are as before |
| `Simulator.FaultSimulator.TryIterations` | code/subprojects/armory/src/simulate_instruction_fault.cpp:148-242 | all iterations at one instruction |
| `Simulator.FaultSimulator.AlreadyProcessed` | code/subprojects/armory/src/simulate_instruction_fault.cpp:136-147 | whether an earlier permanent fault of the chain hit the address |
| `Simulator.FaultSimulator.GetInstructionOrder` | code/subprojects/armory/src/simulate_instruction_fault.cpp:45-62 | collects exactly the instructions executed in the remaining cycles outside the ignored ranges |
| `Simulator.FaultSimulator.WalkTo` | code/subprojects/armory/src/simulate_instruction_fault.cpp:113-135 | walks from one collected address to the next; the emulator ends where the specification says, with cycles to spare |
| `Simulator.FaultSimulator.VisitIndex` | code/subprojects/armory/src/simulate_instruction_fault.cpp:109-242 | restoring, walking, moving the snapshot and injecting at one index adds what the specification finds there |
| `Simulator.FaultSimulator.SimulateInstructionFault` | code/subprojects/armory/src/simulate_instruction_fault.cpp:64-243 | the recursive search adds exactly the specified chains in the specified order, of any order of faults; code, RAM outside the search and all outer snapshots are conserved on every path |
| `Simulator.FaultSimulator.TryPermanentFault` | code/subprojects/armory/src/simulate_instruction_fault.cpp:300-378 | one iteration of a permanent model adds exactly the specified chains, all of them permitted, and puts the code back, overlapping patches included |
| `Simulator.FaultSimulator.VisitPermanentSite` | code/subprojects/armory/src/simulate_instruction_fault.cpp:282-378 | all iterations at one static instruction, unless the chain hit its address before |
| `Simulator.FaultSimulator.SimulatePermanentInstructionFault` | code/subprojects/armory/src/simulate_instruction_fault.cpp:245-380 | the search for permanent faults conserves code and snapshots and adds exactly the specified chains in order, for a share of the indices on the first level, if the decoder gives one verdict on manipulated bytes whatever the state of the CPU; without that, only permitted ones |
| `Simulator.FaultSimulator.SimulateFault` | code/subprojects/armory/src/fault_simulator.cpp:390-414 | the same for the dispatch on the kind of the level's model, through all mutual recursion of permanent and transient levels |
| `PermanentSearch.FromPermanentVisits` | code/subprojects/armory/src/simulate_instruction_fault.cpp:245-380 | every chain found by permanent faults comes from one static instruction and one iteration there |
| `PermanentSearch.IntoPermanentVisits` | code/subprojects/armory/src/simulate_instruction_fault.cpp:245-380 | and what an instruction and an iteration give is found |
| `PermanentSearch.FoundIsPushed` | code/subprojects/armory/src/simulate_instruction_fault.cpp:245-380 | what the search of all kinds finds is permitted to be pushed |
| `Tracer.FaultTracer.RevertFaults` | code/subprojects/armory/src/fault_tracer.cpp:202-211 | the first loop of the fetch hook takes back the transient faults of the previous clock, in list order |
| `Tracer.FaultTracer.InjectFaults` | code/subprojects/armory/src/fault_tracer.cpp:213-232 | the second loop injects the faults of this clock one after the other, re-reading the original bytes each time |
| `Tracer.FaultTracer.ClockCpu` | code/subprojects/armory/src/fault_tracer.cpp:169-233 | one clock of the traced emulator advances the specified replay by one clock |
| `Tracer.FaultTracer.Verify` | code/subprojects/armory/src/fault_tracer.cpp:44-116 | the verdict is that of the specified replay, and the emulator handed in is not changed |
| `ReplayTheorem.ReplayQuiet` | code/subprojects/armory/src/fault_tracer.cpp:195-233 | clocks at which no fault is due leave replay and plain run together |
| `ReplayTheorem.ReplayPending` | code/subprojects/armory/src/fault_tracer.cpp:195-233 | the fetch behind an injected fault is validated while the manipulated bytes are still there |
| `ReplayTheorem.ReplayOneFault` | code/subprojects/armory/src/fault_tracer.cpp:195-233 | one fault of the list, with everything before it in the past, advances the replay exactly as the search advanced |
| `ReplayTheorem.SearchReplays` | code/subprojects/armory/src/simulate_instruction_fault.cpp:64-243 | for every chain of transient faults of any order the search finds from a level on: the replay confirms it if and only if, behind each fault, the manipulated bytes still let the next fetch through |
| `ReplayTheorem.SearchFetches` | code/subprojects/armory/src/simulate_instruction_fault.cpp:64-243 | the search itself fetched each of these instructions from clean code |
| `MixedReplay.ReplayStacked` | code/subprojects/armory/src/fault_tracer.cpp:195-233 | a replay that starts with permanent faults is the replay of the rest on patched code |
| `MixedReplay.ReplayDropsPast` | code/subprojects/armory/src/fault_tracer.cpp:195-233 | permanent faults of earlier clocks no longer act |
| `MixedReplay.PushedDecomposes` | code/subprojects/armory/src/simulate_instruction_fault.cpp:245-380 | a pushed chain is a block of permanent faults, each built on the code the ones before it left, followed by transient ones |
| `MixedReplay.PushedIffReplayed` | code/subprojects/armory/src/fault_tracer.cpp:44-116 | main result: a pushed chain, of permanent and then transient faults of any order, is judged exploitable by the replay from the start with the same budget if and only if the fetches behind its faults (and the first fetch on unpatched code) succeed |
| `MixedReplay.FoundIffReplayed` | code/subprojects/armory/src/fault_tracer.cpp:44-116 | the same for every chain the specified search of a plan of both kinds finds |
| `ReplayConfirmed.FetchLostIff` | code/subprojects/armory/src/fault_tracer.cpp:195-233 | what can be fetched from clean code cannot be fetched from patched code if and only if it lies in the last halfword of flash and the patch makes that the first half of a long instruction |
| `ReplayConfirmed.TransientConfirmed` | code/subprojects/armory/src/fault_tracer.cpp:44-116 | so a chain of transient faults, none of which touches the last halfword of flash, is confirmed |
| `ReplayConfirmed.PushedConfirmed` | code/subprojects/armory/src/fault_tracer.cpp:44-116 | with permanent faults in front, which the replay injects behind its first fetch, it is confirmed if and only if that fetch succeeds on the code as it was |
| `ReplayGap.ReplayCanReject` | code/subprojects/armory/src/fault_tracer.cpp:195-233 | a concrete campaign in which the search pushes a chain and the replay rejects it: the fault turns the last instruction of flash into one that would reach past its end |
| `ExactWalk.WalkExactIff` | code/subprojects/armory/src/simulate_instruction_fault.cpp:113-130 | walking by address is exact at every collected instruction if and only if no address is visited between two collected instructions too early |
| `WalkGap.WalkStopsEarly` | code/subprojects/armory/src/simulate_instruction_fault.cpp:113-130 | a concrete trace that fails: one instruction that branches to itself is collected at clocks 0 and 1, and the walk to its second execution stands at clock 0 |
| `ExactWalk.OrderlyIsExact` | code/subprojects/armory/src/simulate_instruction_fault.cpp:113-130 | it is exact when consecutive collected addresses differ and ignored times, once reached, last to the end; ranges of memory may be ignored anywhere |
| `BruteForce.SearchIsBruteForce` | code/subprojects/armory/src/simulate_instruction_fault.cpp:64-243 | main result: the search for transient faults, of any order and from any level on, finds a chain if and only if its faults strike one after the other: each at a clock of the clean run behind the one before, at an instruction that executes outside the ignored ranges, as an iteration the model accepts, that changes the bytes and is not redundant, for one clock on patched code; the run behind the last one ends exploitable within what is left of the budget, and behind no earlier one. The cut-offs of the budget in the code lose nothing. Needed is that walking by address is exact along the chain |
| `PairFound.PairIsFound` | code/subprojects/armory/src/simulate_instruction_fault.cpp:64-243 | a concrete program that checks twice: with two skips to inject and a budget of 100 the pair is found, and the first skip alone is not |
| `PermanentBruteForce.FullSearchIsBruteForce` | code/subprojects/armory/src/simulate_instruction_fault.cpp:245-380 | the same for plans of permanent and then transient models: permanent faults change distinct static instructions to bytes that decode, equal models in ascending order, each on the code the ones before it left; without transient models the whole chain is judged |
| `Threads.DrawKeeps` | code/subprojects/armory/src/simulate_instruction_fault.cpp:77-93 | handing out an index under the lock keeps: indices handed out are 0 up to the counter, each once |
| `Threads.MergeKeeps` | code/subprojects/armory/src/fault_simulator.cpp:383-387 | merging a thread's results keeps: the merged results are those of the indices the merged threads were handed |
| `Threads.IndicesHandedOutOnce` | code/subprojects/armory/src/simulate_instruction_fault.cpp:77-93 | in every reachable state, for any number of threads and any interleaving, no index was handed out twice or skipped, and every thread got an ascending share |
| `Threads.EveryIndexHandledOnce` | code/subprojects/armory/src/fault_simulator.cpp:105-118 | when all threads have merged, every index was handled exactly once |
| `Threads.GatherPermuted` | code/subprojects/armory/src/fault_simulator.cpp:383-387 | the merged results do not depend, but for their order, on who handled what |
| `Threads.ThreadsComputeTheSearch` | code/subprojects/armory/src/fault_simulator.cpp:105-118 | the merged results of any interleaving are, as a multiset, those of the sequential search, for any order of faults |
| `Threads.ThreadsComputeThePermanentSearch` | code/subprojects/armory/src/fault_simulator.cpp:105-118 | the same for plans that begin with permanent models, whose indices are static instructions |
| `Threads.ThreadsFindBruteForce` | code/subprojects/armory/src/fault_simulator.cpp:105-118 | for transient models of any order they are the chains that brute force finds |
| `InjectionPlan.SubsetsAre` | code/subprojects/armory/src/fault_simulator.cpp:239-252 | selections of a size from a sorted list are its sorted parts of that size |
| `InjectionPlan.ArrangementsAre` | code/subprojects/armory/src/fault_simulator.cpp:281-294 | stepping through the arrangements of a list gives exactly the lists with the same elements |
| `InjectionPlan.SplitModels` | code/subprojects/armory/src/fault_simulator.cpp:208-226 | models are split by kind, each listed as often as it may be injected |
| `InjectionPlan.GatherPermanent` | code/subprojects/armory/src/fault_simulator.cpp:230-253 | exactly the nonempty sorted parts of the permanent models within the limit |
| `InjectionPlan.AddArrangement` | code/subprojects/armory/src/fault_simulator.cpp:283-293 | one arrangement alone and behind every permanent selection that fits the limit |
| `InjectionPlan.GatherAll` | code/subprojects/armory/src/fault_simulator.cpp:255-297 | the permanent selections and, behind each or none of them, every arrangement of a part of the others |
| `InjectionPlan.ComputePlan` | code/subprojects/armory/src/fault_simulator.cpp:204-322 | the plan is strictly ordered by size and then lexicographically, and an entry is in it if and only if it is a sorted part of the permanent models followed by an arrangement of a part of the others, nonempty and within the limit |
| `InjectionPlan.PlannedIff` | code/subprojects/armory/src/fault_simulator.cpp:204-322 | that is: it is not empty and within the limit, names no model more often than it may be injected, and its permanent models come first, in ascending order |
| `InjectionPlan.EarlierTotal` | code/subprojects/armory/src/fault_simulator.cpp:302-319 | the order of the plan is a strict total one |
| `InjectionPlan.PermanentFirst` | code/subprojects/armory/src/fault_simulator.cpp:204-322 | in every entry the permanent models come first |
| `InjectionPlan.ListedOnce` | code/subprojects/armory/src/fault_simulator.cpp:299-321 | no entry is listed twice |
| `InjectionPlan.Shorter` | code/subprojects/armory/src/fault_simulator.cpp:425-442 | an entry without its last model belongs in the plan too |
| `InjectionPlan.LastAlone` | code/subprojects/armory/src/fault_simulator.cpp:425-442 | so does its last model alone |
| `InjectionPlan.KnownBefore` | code/subprojects/armory/src/fault_simulator.cpp:425-442 | both stand earlier in the plan: looking up what they found never misses |
| `KnownFaults.SimulateAll` | code/subprojects/armory/src/fault_simulator.cpp:80-132 | the loop over the plan, for models of both kinds, remembers for each entry what the recursive definition says: what its last model and the entry without it found, and what is new |
| `KnownFaults.FullIsFresh` | code/subprojects/armory/src/simulate_instruction_fault.cpp:64-380 | a chain the search finds, by permanent or transient faults, is not redundant and has at most one fault for each model still to be injected |
| `KnownFaults.FullPrefixFinds` | code/subprojects/armory/src/simulate_instruction_fault.cpp:64-380 | a chain found before the last level is found by the shorter entry as well |
| `KnownFaults.AddedIsFull` | code/subprojects/armory/src/fault_simulator.cpp:127-130 | hence every chain an entry adds has one fault for each of its models |
| `KnownFaults.KnownAscends` | code/subprojects/armory/src/fault_simulator.cpp:416-442 | the list an entry is tested against is ordered by size, without empty chains, all shorter than the entry |
| `KnownFaults.ContainsIff` | code/subprojects/armory/src/instruction_fault_model.cpp:63-66 | a known chain is contained if and only if its faults are found at ascending places, the same in model, address, time and iteration, whatever their bytes |
| `KnownFaults.IndexDecides` | code/subprojects/armory/src/fault_simulator.cpp:416-518 | so the redundancy index may be built from it, and decides whether a chain contains a known one |
| `KnownFaults.FullOrPruned` | code/subprojects/armory/src/simulate_instruction_fault.cpp:64-380 | a chain the search without redundancy test finds is found with any test too, unless a beginning of it is redundant |
| `KnownFaults.PruningLosesNothing` | code/subprojects/armory/src/fault_simulator.cpp:476-518 | every chain that the search without redundancy test would find contains one that is remembered, for the test that asks for inclusion |
| `ThreadedPlan.PooledIsSearch` | code/subprojects/armory/src/fault_simulator.cpp:105-118 | the chains any threads merge for an entry, of either kind, are those of the sequential search of the entry |
| `ThreadedPlan.ThreadsRememberTheSame` | code/subprojects/armory/src/fault_simulator.cpp:100-155 | a campaign whose entries are searched by threads, however they interleave and however the merged results are ordered, remembers for each entry the same chains as the sequential one, although each entry is tested against what the ones before it left |
| `ThreadedPlan.ThreadsLoseNothing` | code/subprojects/armory/src/fault_simulator.cpp:476-518 | so with threads too every chain of the search without redundancy test contains one that is remembered |
| `Redundancy.InOrderIffPicks` | code/subprojects/armory/src/fault_combination.cpp:97-120 | the recursive reading of in-order inclusion is inclusion with explicit ascending positions |
| `Redundancy.CustomIncludes` | code/subprojects/armory/src/fault_combination.cpp:97-120 | the greedy scan decides in-order inclusion |
| `Redundancy.IncludedIff` | code/subprojects/armory/src/fault_combination.cpp:122-130 | one combination includes another if and only if the faults of either kind of the other one occur in it at ascending places |
| `Redundancy.Includes` | code/subprojects/armory/src/fault_combination.cpp:122-130 | a combination includes another if and only if both its fault lists do |
| `Redundancy.Hash` | code/subprojects/armory/src/fault_simulator.cpp:453-464 | the loop computes the hash of a selection |
| `Redundancy.BinarySearch` | code/subprojects/armory/src/fault_simulator.cpp:501-501 | finds a hash if and only if it is listed |
| `Redundancy.RemoveDuplicates` | code/subprojects/armory/src/fault_simulator.cpp:17-22 | sorted, without duplicates, with the same elements |
| `Redundancy.RedundancyIndex.Add` | code/subprojects/armory/src/fault_simulator.cpp:465-466 | files a known combination under one hash, keeping each bucket ordered by size |
| `Redundancy.RedundancyIndex.FileAll` | code/subprojects/armory/src/fault_simulator.cpp:446-468 | files a known combination under the hashes of all selections of its faults |
| `Redundancy.RedundancyIndex.Prepare` | code/subprojects/armory/src/fault_simulator.cpp:444-470 | builds a valid index over any list of nonempty combinations in nondecreasing size |
| `Redundancy.RedundancyIndex.AnyIncluded` | code/subprojects/armory/src/fault_simulator.cpp:503-513 | scanning a bucket with its early break misses nothing |
| `Redundancy.RedundancyIndex.SearchSize` | code/subprojects/armory/src/fault_simulator.cpp:485-515 | a hit is a known combination included; for single faults, no hit means none under their hashes |
| `Redundancy.RedundancyIndex.IsFaultRedundant` | code/subprojects/armory/src/fault_simulator.cpp:476-518 | for every hash function and every order of listing faults: true if and only if some known combination is included in the candidate |
| `RegisterSearch.EntryIs` | code/subprojects/armory/src/simulate_register_fault.cpp:15-48 | an entry of the trace holds the registers read by the instruction of its clock, sorted and once each, none in ignored ranges |
| `RegisterSearch.WalkByCount` | code/subprojects/armory/src/simulate_register_fault.cpp:130-140 | walking by instruction count is always exact: the emulator stands before the instruction counted to, with the return code for an exhausted budget, so that the throw is unreachable; no condition on addresses is needed |
| `RegisterSearch.WithKeepsEven` | code/subprojects/armory/src/simulate_register_fault.cpp:58-66 | the hooks that put values back keep the program counter even |
| `RegisterSimulator.RegisterThread.RunExecuteHooks` | code/subprojects/armory/src/simulate_register_fault.cpp:58-66 | the hooks of all levels behind an executed instruction, outer levels first |
| `RegisterSimulator.RegisterThread.ClockCpu` | code/subprojects/m-ulator/src/emulator_base.cpp:707-819 | one clock with these hooks, and the registers collected |
| `RegisterSimulator.RegisterThread.Emulate` | code/subprojects/m-ulator/src/emulator_base.cpp:606-638 | the loop computes the specified run of the machine with hooks, and its trace |
| `RegisterSimulator.RegisterThread.AlreadyProcessed` | code/subprojects/armory/src/simulate_register_fault.cpp:153-181 | whether the register was faulted at this moment, or still holds what a lasting fault put there |
| `RegisterSimulator.RegisterThread.TryRegisterFault` | code/subprojects/armory/src/simulate_register_fault.cpp:186-258 | one iteration adds the specified chains, leaves the saved states of this and outer levels, and removes its hook again |
| `RegisterSimulator.RegisterThread.WalkTo` | code/subprojects/armory/src/simulate_register_fault.cpp:127-147 | stands before the instruction of the index with the budget minus its number remaining, which is never zero |
| `RegisterSimulator.RegisterThread.SimulateRegisterFault` | code/subprojects/armory/src/simulate_register_fault.cpp:68-261 | the recursive search adds exactly the specified chains of transient and lasting faults of any order, in order, and conserves the outer levels and their hooks |
| `RegisterBruteForce.WrittenReads` | code/subprojects/m-ulator/src/emulator_base.cpp:821-965 | a written register reads back as what was written, but for the alignment of SP, the four bytes PC reads ahead and the bits the status register keeps; the others are left alone |
| `RegisterBruteForce.TakenBack` | code/subprojects/armory/src/simulate_register_fault.cpp:58-66 | behind the faulted instruction a transient fault is taken back, and a register that was not hit keeps what the instruction left in it |
| `RegisterBruteForce.NothingTakenBack` | code/subprojects/armory/src/simulate_register_fault.cpp:58-66 | at every other clock the hooks do nothing |
| `RegisterBruteForce.SearchIsBruteForce` | code/subprojects/armory/src/simulate_register_fault.cpp:68-261 | main result: for every trace and every order, from any level on, the search finds a chain if and only if its faults strike one after the other: each in a register the instruction of a clock of the run so far reads, outside the ignored ranges, not hit at this time and not still holding what a lasting fault put there, as an iteration that is accepted and that the register takes; the run behind the last one, with all hooks, ends exploitable within what is left of the budget, and behind no earlier one |
| `RegisterBruteForce.ThreadsFindBruteForce` | code/subprojects/armory/src/fault_simulator.cpp:105-118 | the same for any number of threads and any interleaving |
| `RegisterReplay.RegisterTracer.HandleRegisterFaults` | code/subprojects/armory/src/fault_tracer.cpp:235-271 | the fetch hook: taking back, then injecting one after the other, re-reading the original value |
| `RegisterReplay.RegisterTracer.Verify` | code/subprojects/armory/src/fault_tracer.cpp:44-116 | the verdict is that of the specified replay |
| `RegisterReplayTheorem.UndoneIsReverting` | code/subprojects/armory/src/fault_tracer.cpp:241-254 | taking back in the next fetch hook does what the search's hooks did behind the instruction |
| `RegisterReplayTheorem.SearchReplaysIff` | code/subprojects/armory/src/simulate_register_fault.cpp:68-261 | main result: whatever registers a found chain of any order hits, the program counter included, and whatever the exploitability model looks at, the replay confirms it if and only if the tests in the clocks behind its faults, made there before taking back, agree with the search; odd addresses may be written into the program counter only by faults of the last clock |
| `RegisterAgreement.LastFaultDecides` | code/subprojects/armory/src/simulate_register_fault.cpp:68-261 | without faults of the program counter, and if memory, address and time decide whether to go on, the replay confirms a found chain if and only if the instruction faulted last does not run into an end judged unexploitable before the register is put back |
| `RegisterAgreement.SearchReplays` | code/subprojects/armory/src/simulate_register_fault.cpp:68-261 | so it always does if the model judges by memory, address and time |
| `RegisterAgreement.ClearDecides` | code/subprojects/armory/src/fault_tracer.cpp:235-271 | with faults of the program counter and any model, when even addresses are written and no stop lies at the addresses written, run into or put back: confirmed if and only if the address run into last can be fetched and is no other end |
| `RegisterReplayGaps.ReplayMissesRevert` | code/subprojects/armory/src/fault_tracer.cpp:235-254 | that last test can fail: a model that reads registers, a chain the search pushes and the replay rejects, because the replay judges before it takes back |
| `RegisterReplayGaps.ReplayMissesJump` | code/subprojects/armory/src/fault_tracer.cpp:256-270 | so can the condition on stops: a fault that moves the program counter to an end address ends the search there but not the replay |
| `RegisterReplayGaps.ReplayMissesOdd` | code/subprojects/armory/src/fault_tracer.cpp:256-270 | and so can the one on odd addresses: behind a fault that writes one, before a second fault, the search goes on at the even address, the replay executes at the odd one |
| `ReplacementPass.StripBlock` | case_studies/protect_with_replacement.py:117-120 | the `then` lines lose the condition, the `else` lines its inverse, nothing else changes |
| `ReplacementPass.LowerBlock` | case_studies/protect_with_replacement.py:105-128 | an IT block becomes a branch on the inverse condition, the stripped lines, a jump between the branches if there are two, and their labels |
| `ReplacementPass.RewriteCall` | case_studies/protect_with_replacement.py:129-140 | a call becomes the pairs that form the return address and branch, and the label to return to |
| `ReplacementPass.RewriteTransfer` | case_studies/protect_with_replacement.py:141-154 | a transfer with writeback becomes the plain transfer twice; the addition left over is looked at by the next round |
| `ReplacementPass.RewriteAlias` | case_studies/protect_with_replacement.py:155-160 | PUSH and POP are respelled as block transfers and looked at again |
| `ReplacementPass.RewriteMany` | case_studies/protect_with_replacement.py:161-196 | block transfers in the four shapes the script tells apart |
| `ReplacementPass.RewriteKnown` | case_studies/protect_with_replacement.py:197-219 | known operations: by way of the spare register when the first register repeats or the carry is at stake, else twice; unknown ones once |
| `ReplacementPass.RewriteConditional` | case_studies/protect_with_replacement.py:197-219 | a conditional instruction outside the lowered blocks: known under the seven suffixes, and then twice or by way of the spare register, whose copy back loses the condition |
| `ReplacementPass.Protect` | case_studies/protect_with_replacement.py:65-221 | the loop that overwrites and inserts lines while its index moves produces exactly the specified units, for every input, and fails exactly when an IT block runs past the end |
| `ReplacementLayout.CompiledIsMade` | case_studies/protect_with_replacement.py:65-221 | the output is, line by line, what each source line becomes given the section, block and label counter before it |
| `ReplacementTolerance.ExpandGood` | case_studies/protect_with_replacement.py:129-216 | whatever the pass writes twice may be executed twice |
| `ReplacementCoverage.SingleIff` | case_studies/protect_with_replacement.py:41-54 | an instruction that does not name the spare register stays single if and only if it is `sbc`, `asr`, `mvn`, `blx` or `adr`; of any other, all lines are written twice but the label a call returns to |
| `ReplacementCoverage.BranchSingleIff` | case_studies/protect_with_replacement.py:47-54 | a branch outside blocks stays single exactly under mi, pl, vs, vc, ge, lt and le |
| `ReplacementCoverage.AloneLines` | case_studies/protect_with_replacement.py:65-221 | a line of the output that stands alone is a label or a mark, an instruction that is not listed, a branch under a condition that is not listed, the branch an IT instruction became, or a line of an ignored section |
| `ReplacementCoverage.OneSkipAnywhere` | case_studies/protect_with_replacement.py:65-221 | skipping any other executed line of the output, anywhere in a run, is made up for within one step |
| `ReplacementCoverage.ProtectedRuns` | case_studies/protect_with_replacement.py:65-221 | the end of the source is reached, with the same flags, registers and memory, however many of these lines are skipped, never two in a row |
| `ReplacementTolerance.OutputPaired` | case_studies/protect_with_replacement.py:65-221 | the output of an eligible program consists of identical adjacent pairs, and lines that stand alone |
| `Replayable.PerformAgain` | case_studies/protect_with_replacement.py:41-41 | a second execution of an instruction of the paired kinds changes nothing: registers, flags and memory |
| `Replayable.LoadManyAgain` | case_studies/protect_with_replacement.py:187-196 | a block load without its base in the list may be repeated |
| `CodeAddresses.PerformAmong` | case_studies/protect_with_replacement.py:129-140 | executing an instruction brings no code addresses into play but those of labels and of the next line |
| `SkipTolerance.TrailingHalf` | case_studies/protect_with_replacement.py:194-216 | the second half of a pair does nothing once the first half ran and went on |
| `SkipTolerance.OwedHalf` | case_studies/protect_with_replacement.py:194-216 | skipping the first half leaves the whole effect to the second |
| `SkipTolerance.StepTracks` | case_studies/protect_with_replacement.py:194-216 | one step with or without a skip keeps the faulty run in step with the run that executes each pair once |
| `SkipTolerance.RunTracks` | case_studies/protect_with_replacement.py:194-216 | so does any number of steps with any number of tolerable skips |
| `SkipTolerance.SkipsAreHarmless` | case_studies/protect_with_replacement.py:194-216 | a program of pairs ends in the very same state however many instructions are skipped, as long as never both halves of a pair are |
| `SkipTolerance.OneSkip` | case_studies/protect_with_replacement.py:194-216 | after a single skip of any dynamically executed paired instruction the run is back in the unskipped run's state after at most one more step |
| `ReplacementPlaces.FindSource` | case_studies/protect_with_replacement.py:129-140 | a label of the source is found where its line went, inserted lines and fresh labels notwithstanding |
| `ReplacementPlaces.FindFresh` | case_studies/protect_with_replacement.py:106-128 | a fresh label is found where the pass put it |
| `ReplacementData.ProducedAlike` | case_studies/protect_with_replacement.py:197-216 | on states with the same data an operation computes the same into its own register or the spare one |
| `ReplacementData.GoesOnAlike` | case_studies/protect_with_replacement.py:212-216 | on states with the same data but for some registers aside, every instruction that goes on and does not name those has the same effect in any two programs |
| `ReplacementMeaning.SameInstruction` | case_studies/protect_with_replacement.py:212-216 | on states with the same data, code addresses moved, an instruction has the same effect in source and output |
| `ReplacementMeaning.SpareRuns` | case_studies/protect_with_replacement.py:199-211 | computing into the spare register and copying has the instruction's effect |
| `ReplacementMeaning.TransferRuns` | case_studies/protect_with_replacement.py:141-154 | so have the two plain transfers and the addition that replace a writeback |
| `ReplacementMeaning.StoreManyRuns` | case_studies/protect_with_replacement.py:161-196 | so has what replaces PUSH and STM |
| `ReplacementMeaning.LoadManyRuns` | case_studies/protect_with_replacement.py:161-196 | so has what replaces POP and LDM, the branch through a loaded program counter included |
| `ReplacementMeaning.CallRuns` | case_studies/protect_with_replacement.py:129-140 | so has what replaces a call, with the return address moved |
| `ReplacementMeaning.OpRuns` | case_studies/protect_with_replacement.py:129-216 | so has what replaces any replaceable instruction |
| `ReplacementSimulation.ItLine` | case_studies/protect_with_replacement.py:105-128 | the branch an IT instruction becomes, taken or not |
| `ReplacementSimulation.SkippedLine` | case_studies/protect_with_replacement.py:117-120 | a block line whose condition fails is matched by waiting at the block's label |
| `ReplacementSimulation.TakenLine` | case_studies/protect_with_replacement.py:117-128 | a block line whose condition holds, and the jump over the other branch behind it |
| `ReplacementSimulation.StepFollowed` | case_studies/protect_with_replacement.py:65-221 | one step of the source, blocks deciding at their IT instruction, is followed by the output, at instruction boundaries |
| `ReplacementSimulation.LatchedFollowed` | case_studies/protect_with_replacement.py:65-221 | so is any run that decides each block at its IT instruction; lines of a block may write flags |
| `ReplacementSimulation.SameDeeds` | case_studies/protect_with_replacement.py:105-128 | the source executes the same lines as such a run, and so as the output, if and only if the condition of every block line comes out, when it is reached, as it did at the IT instruction |
| `ReplacementSimulation.QuietIsSteady` | case_studies/protect_with_replacement.py:105-128 | which it does when only last lines of blocks write flags |
| `ReplacementSimulation.RunFollowed` | case_studies/protect_with_replacement.py:65-221 | meaning preservation: whatever state the source gets to, the output gets to the related one |
| `ReplacementSimulation.HardenedLatched` | case_studies/protect_with_replacement.py:65-221 | a run that decides blocks at their IT instruction and ends is matched by the output under all tolerable patterns of skips |
| `ReplacementSimulation.HardenedRuns` | case_studies/protect_with_replacement.py:65-221 | main result: when an eligible source runs to its end, conditions in blocks coming out as at their IT instruction, the output ends too, with the same flags, registers (but the spare one) and memory, in one and the same state under all tolerable patterns of skips |
| `RepeatedOperations.SettledIff` | case_studies/protect_with_replacement.py:213-216 | each two-operand operation done twice, flags included, gives what it gives once if and only if the condition of its kind on the operands holds: addends and subtrahends zero, 2x - y a multiple of 2^32 for `rsb`, and so on for products, shifts and rotations |
| `ReplacementLimits.TwoOperands` | case_studies/protect_with_replacement.py:213-216 | so the replacement of a two-operand instruction, with any form of operand, has its effect if and only if that condition holds |
| `SpareOperations.SpareSuitsIff` | case_studies/protect_with_replacement.py:206-212 | each operation done twice on a number t in place of x, flags included, gives what once on x gives if and only if the operands meet the condition of its kind: for `add`, `sub` and the like one operation on t must give x, for `and`, `orr`, `bic` what it gives on x, for `mul` and the shifts a congruence of t and x |
| `ReplacementLimits.RepeatedOperand` | case_studies/protect_with_replacement.py:206-212 | a two-operand instruction that names its register twice goes by way of the spare register, which was never loaded: it keeps its effect if and only if the spare register holds a number that suits the operation in this sense, as found before execution |
| `ReplacementLimits.AddedToItself` | case_studies/protect_with_replacement.py:206-212 | so `add rd, rd` keeps its effect if and only if the spare register holds zero |
| `ReplacementLimits.AddedTwice` | case_studies/protect_with_replacement.py:213-216 | a concrete input: `add r0, #1` with r0 zero leaves one, its replacement two |
| `ReplacementLimits.CarryLost` | case_studies/protect_with_replacement.py:199-205 | a flag setting operation that mentions `adc` or `ror` keeps its effect if and only if carry and overflow come out as they went in |
| `ReplacementLimits.MoveCarryLost` | case_studies/protect_with_replacement.py:199-205 | a flag setting move, if and only if the carry does |
| `ReplacementLimits.ShortCarryLost` | case_studies/protect_with_replacement.py:199-205 | the two-operand spellings compute with the spare register besides: it must also hold a number that suits the operation |
| `SpareOperations.InsertedAgree` | case_studies/protect_with_replacement.py:206-212 | inserting the same field into two numbers gives the same if and only if they agree in every bit outside the field |
| `ReplacementLimits.InsertedIntoItself` | case_studies/protect_with_replacement.py:206-212 | inserting bits of a register into itself inserts them into the spare register: kept if and only if that is a number with the same bits outside the field |
| `ReplacementLimits.ComparedWithItself` | case_studies/protect_with_replacement.py:206-212 | comparing or testing a register with itself loses it: kept if and only if the spare register happens to hold the same |
| `ReplacementLimits.StoredThroughItself` | case_studies/protect_with_replacement.py:206-212 | likewise stores of any size whose register occurs again |
| `ReplacementLimits.ReplacedExactly` | case_studies/protect_with_replacement.py:129-216 | together: for every instruction outside the replaceable ones that has an effect, its replacement has that effect if and only if the condition of its kind holds, on operands and spare register before execution; where the carry is lost, on the flags |
| `ReplacementBlocks.PassedIffInOrder` | case_studies/protect_with_replacement.py:105-128 | whatever the flags, a lowered block passes the lines the block executes if and only if the lines with its condition come first; in any other order, as in `itet`, it passes fewer |
| `ReplacementBlocks.AlternatingCompiled` | case_studies/protect_with_replacement.py:105-128 | what an `itet` block becomes |
| `ReplacementBlocks.AlternatingDiffers` | case_studies/protect_with_replacement.py:105-128 | and that its last line is executed by the source and not by the output |
| `ReplacementBlocks.FlagBlockCompiled` | case_studies/protect_with_replacement.py:105-128 | what an IT block becomes whose first line sets flags |
| `ReplacementBlocks.FlagBlockDiffers` | case_studies/protect_with_replacement.py:105-128 | and that it then does something else than the block |
| `FlowGraph.BlockBeforeIff` | case_studies/protect_control_flow.py:108-145 | control is in the block whose label comes last, unless behind it stands an unconditional branch, call or return |
| `FlowGraph.Flow.FindPredecessors` | case_studies/protect_control_flow.py:108-145 | one block precedes another if and only if a branch of it goes there or it falls through to it |
| `FlowGraph.Flow.Prune` | case_studies/protect_control_flow.py:211-222 | the loop terminates whatever block it picks, and what is left is the greatest set of blocks each of which is a main function or has a predecessor in the set other than itself |
| `FlowGraph.GreatestIsUnique` | case_studies/protect_control_flow.py:211-222 | there is only one such set, so the order in which the dictionary is visited does not matter |
| `SignaturePass.AssignSignatures` | case_studies/protect_control_flow.py:284-290 | every label gets a signature of its own, unless the random numbers run out of new values |
| `SignaturePass.CoveringIff` | case_studies/protect_control_flow.py:306-352 | the block a line is walked to from is the one whose label comes last, unless behind it stands a directive, an unconditional return, or an unconditional branch or call to a labelled block |
| `SignaturePass.PlaceCode` | case_studies/protect_control_flow.py:306-366 | the loop over the labels puts in front of and behind every line what the specification says, whatever order it visits them in |
| `SignaturePass.PlacedOnTheWay` | case_studies/protect_control_flow.py:340-366 | the code placed at the end of a block is the code run on the way out of it, for every kind of exit: jump or call, branch taken or not, next block, return, compare-and-branch |
| `ControlChecks.WalkComparison` | case_studies/protect_control_flow.py:316-320 | the comparison passes if and only if the signature register holds the signature, and then has changed nothing the program sees, the flags included |
| `ControlChecks.CheckOutcome` | case_studies/protect_control_flow.py:309-320 | a block's check passes if and only if the mixed value is its signature; then the register holds the signature, else the error is reported |
| `ControlChecks.DetectsExactly` | case_studies/protect_control_flow.py:287-320 | a jump from the end of any block into a checked one passes if and only if it comes from the only predecessor, or the distance register holds the distance between the first predecessor and where it comes from |
| `ControlRuns.WalkExit` | case_studies/protect_control_flow.py:340-366 | the code on the way out changes nothing the program sees and prepares the distance a block with several predecessors wants |
| `ControlRuns.EdgePasses` | case_studies/protect_control_flow.py:309-366 | along every edge of the graph the check passes and the signature register holds the new block's signature |
| `ControlRuns.LegalRunsPass` | case_studies/protect_control_flow.py:284-366 | along every path, of any length, no error is reported and program registers and flags are those of the unprotected run |
| `ControlRuns.LegalRunsPassFromStart` | case_studies/protect_control_flow.py:292-293 | the same from the start of the main function, where the signature register is loaded |
| `ControlPaths.StepsAlongEdges` | case_studies/protect_control_flow.py:108-145 | executing the lines, every change of block but a return follows an edge that finding the predecessors finds |
| `ControlPaths.RunsAreKept` | case_studies/protect_control_flow.py:211-222 | a run from a main function stays in blocks that are not pruned |
| `ControlPaths.StepKept` | case_studies/protect_control_flow.py:211-222 | and whenever it changes the block, the one it comes from is a predecessor left after pruning |
| `ControlOutput.WriteOut` | case_studies/protect_control_flow.py:370-382 | the lines are written out, each with its code |
| `ControlOutput.Instrument` | case_studies/protect_control_flow.py:292-382 | placing the code and writing the lines out gives the specified output |
| `ControlOutput.FindLine` | case_studies/protect_control_flow.py:370-382 | a label is found in the output where its line went |
| `ControlOutput.ReturnPlace` | case_studies/protect_control_flow.py:354-355 | a call returns to the place of the line behind it |
| `ControlCode.CodeRuns` | case_studies/protect_control_flow.py:306-320 | code that runs through does so as lines of the output, at any place, without coming to the line errors are reported at |
| `ControlCode.CodeReports` | case_studies/protect_control_flow.py:318-319 | code that reports an error comes to that line |
| `ControlMeaning.SameEffect` | case_studies/protect_control_flow.py:370-382 | every instruction of the program has the same effect in source and output, code addresses moved, and leaves the reserved registers alone |
| `ControlSimulation.StepFollowed` | case_studies/protect_control_flow.py:292-366 | whatever a step of the source does, within a block or to another by any exit, the output follows it, checks passed |
| `ControlSimulation.LinesPass` | case_studies/protect_control_flow.py:292-382 | main result: a run of the source lines that keeps to edges the checks can follow is followed by the output, line by line; no error is reported, the data is the same, the place corresponds, and the signature register holds the signature of the block |
| `ControlSimulation.LinesPassFromStart` | case_studies/protect_control_flow.py:292-293 | from the label of the main function, where the register is loaded |
| `ControlVerdicts.TellingIsLegal` | case_studies/protect_control_flow.py:108-366 | with the predecessors that finding and pruning leave, a run follows such edges as soon as the blocks it enters have one predecessor or D is loaded on the way |
| `ControlVerdicts.RunsAccepted` | case_studies/protect_control_flow.py:108-382 | hence every such run from the main function is accepted |
| `ControlVerdicts.OutputDetects` | case_studies/protect_control_flow.py:306-320 | at the label of a checked block the output goes on if and only if control comes from the only predecessor, or D holds the distance; else it reports an error |
| `ControlVerdicts.UnloadedExit` | case_studies/protect_control_flow.py:340-352 | on an exit without D loaded, out of the start block or by a compare-and-branch, into a block with several predecessors: accepted if and only if D happens to hold the distance |
| `ControlVerdicts.LegalEdgeReported` | case_studies/protect_control_flow.py:340-352 | a program, a run along an edge of its graph, and the error reported: the branch is a `cbz` out of the start block |
| `ExclusiveOr.XorSolves` | case_studies/protect_control_flow.py:300-304 | of two words and their exclusive or each is determined by the other two |
| `Arithmetic.CompareDecides` | code/subprojects/m-ulator/src/emulator_execution.cpp:634-664 | after a comparison each of EQ, NE, CS, CC, HI, LS, GE, LT, GT, LE decides the integer relation it is named for, and VS signed overflow (sections A2.2.1 and A7.3 of the ARMv7-M Architecture Reference Manual) |
| `Arithmetic.AddIsExact` | code/subprojects/m-ulator/src/arm_functions.cpp:139-147 | result and carry are the exact sum |
| `Arithmetic.AddChainIsExact` | code/subprojects/m-ulator/src/emulator_execution.cpp:173-202 | a chain of ADCS over any number of words computes the exact sum and final carry |
| `Arithmetic.SubChainIsExact` | code/subprojects/m-ulator/src/emulator_execution.cpp:455-486 | a chain of SBCS computes the exact difference, the final carry its borrow |
| `Arithmetic.AddChainOverflow` | code/subprojects/m-ulator/src/emulator_execution.cpp:173-202 | the overflow flag of the top word is clear if and only if the signed sum of the whole numbers fits |
| `Arithmetic.SubChainCompares` | code/subprojects/m-ulator/src/emulator_execution.cpp:455-486 | after a chain of SBCS the conditions CS, CC, GE, LT compare the whole numbers, unsigned and signed |
| `Thumb.InverseHolds` | code/subprojects/m-ulator/src/emulator_execution.cpp:67-120 | flipping the lowest bit of a condition inverts it |
| `BlockTransfers.BitCount` | code/subprojects/m-ulator/src/arm_functions.cpp:212-221 | the loop counts the one bits |
| `BlockTransfers.BitsListing` | code/subprojects/m-ulator/src/arm_functions.cpp:212-221 | which are the listed registers |
| `BlockTransfers.StoredHolds` | code/subprojects/m-ulator/src/emulator_execution.cpp:1052-1061 | storing puts the listed registers at ascending addresses and writes nothing else |
| `BlockTransfers.LoadedRestores` | code/subprojects/m-ulator/src/emulator_execution.cpp:1016-1023 | loading from there restores exactly the listed registers |
| `BlockTransfers.StoresBelow` | code/subprojects/m-ulator/src/emulator_execution.cpp:1089-1124 | storing below a base moves it down by four for each register and writes only the bytes it moved over |
| `BlockTransfers.PushPop` | code/subprojects/m-ulator/src/emulator_execution.cpp:1003-1069 | PUSH and a later POP of the same list bring back all listed registers and the stack pointer and touch only bytes below the old one, for every list and every aligned stack pointer with room |
| `BlockTransfers.StoreLoad` | code/subprojects/m-ulator/src/emulator_execution.cpp:877-910 | likewise STMDB and LDM with writeback and any base not in the list |
| `BlockTransfers.LowestFirst` | code/subprojects/m-ulator/src/emulator_base.cpp:1080-1171 | a word lies in memory with its lowest byte first |
| `BlockTransfers.CallReturn` | code/subprojects/m-ulator/src/emulator_execution.cpp:1003-1069 | main result: after pushing a list with LR, popping the list with PC in its place goes to LR with its lowest bit cleared and brings back SP and the other registers, if that bit was set; it faults, leaving SP and PC, if and only if it was clear |
| `BlockTransfers.StoreReturn` | code/subprojects/m-ulator/src/emulator_execution.cpp:877-910 | the same by STMDB and LDM with writeback, except that the base comes back four bytes short |
| `BlockTransfers.LoadMovesBaseIff` | code/subprojects/m-ulator/src/emulator_execution.cpp:897-905 | LDM moves its base by four for each listed register if and only if PC is not listed: the address is not advanced past the word of PC |
| `BlockTransfers.StoreFaultsIff` | code/subprojects/m-ulator/src/emulator_execution.cpp:1036-1069 | a store goes through if and only if its lowest address is aligned and all its words lie in RAM, wrap-around included |
| `BlockTransfers.LoadFaultsIff` | code/subprojects/m-ulator/src/emulator_execution.cpp:1003-1035 | a load goes through if and only if its address is aligned, all its words can be read, and the word for PC is odd |
| `BlockTransfers.Cpu.ReadMemory` | code/subprojects/m-ulator/src/emulator_base.cpp:978-1078 | a word read from RAM or flash, or a fault |
| `BlockTransfers.Cpu.WriteMemory` | code/subprojects/m-ulator/src/emulator_base.cpp:1080-1171 | a word written to RAM, or a fault that changes nothing |
| `BlockTransfers.Cpu.Push` | code/subprojects/m-ulator/src/emulator_execution.cpp:1036-1069 | computes the specified transfer |
| `BlockTransfers.Cpu.Pop` | code/subprojects/m-ulator/src/emulator_execution.cpp:1003-1035 | computes the specified transfer, the branch through the program counter included |
| `BlockTransfers.Cpu.StoreBelow` | code/subprojects/m-ulator/src/emulator_execution.cpp:1089-1124 | computes the specified transfer |
| `BlockTransfers.Cpu.Load` | code/subprojects/m-ulator/src/emulator_execution.cpp:877-910 | computes the specified transfer, a base that is listed included |
| `Printf.OutRev` | run_arm_code/printf.c:200-224 | padding, the reversed digits, padding behind; the index advances by their number whatever fits |
| `Printf.ConvertDigits` | run_arm_code/printf.c:282-302 | the digits of the number, lowest first, at most 32 of them |
| `Printf.FormatNumber` | run_arm_code/printf.c:228-278 | zeros, prefix and sign as the flags, width and precision say, put out in reverse |
| `Printf.ConvertNumber` | run_arm_code/printf.c:282-302 | a number converted and put out |
| `Printf.Atoi` | run_arm_code/printf.c:189-197 | reads digits and stops at the first character that is none, in 32-bit arithmetic |
| `PrintfRoundTrip.ReadSpelled` | run_arm_code/printf.c:189-197 | a string of digits reads as the number it spells, modulo 2^32 |
| `PrintfRoundTrip.DigitsSpell` | run_arm_code/printf.c:282-302 | the digits of a number spell it, in every base |
| `PrintfRoundTrip.TextSpells` | run_arm_code/printf.c:282-302 | plain unsigned output in any base, hexadecimal and octal among them, for any value, width and precision, spells the value behind its leading blanks |
| `PrintfRoundTrip.DecimalReadsBack` | run_arm_code/printf.c:282-302 | decimal output, read behind its leading blanks, gives the value back and is read to its end |
| `PrintfRoundTrip.BufferReadsBack` | run_arm_code/printf.c:578-858 | the buffer filled for `%u`, whatever its size, reads as the leading digits that fit |
| `PrintfRoundTrip.FittingReadsBack` | run_arm_code/printf.c:578-858 | and as the number itself if it fits |
| `Printf.ParseDirective` | run_arm_code/printf.c:602-681 | flags, width, precision and length of a directive |
| `Printf.Convert` | run_arm_code/printf.c:684-850 | the text of one conversion, for every specifier |
| `Printf.Vsnprintf` | run_arm_code/printf.c:578-858 | for every format and argument list the return value is the length of a text that does not depend on the buffer or its size; the buffer holds the longest prefix that fits and one zero, and nothing else of it is written (section 7.21.6.5 of ISO C11) |
| `Printf.Terminate` | run_arm_code/printf.c:853-854 | the closing zero at the end of the text or in the last place |
| `PrintfFormats.DirectiveRead` | run_arm_code/printf.c:602-681 | for any flags, width, precision and length, given by digits or by arguments, reading the directive gives what its parts mean: each flag is set if its character occurs, a negative width fills from the left, a negative precision is zero |
| `PrintfFormats.DirectiveText` | run_arm_code/printf.c:588-851 | at any place of any format such a directive is put out as its parts mean it, and the rest with the arguments behind those it used |
| `PrintfFormats.LiteralText` | run_arm_code/printf.c:588-600 | what stands between directives is put out as it is |
| `PrintfFormats.NumberShape` | run_arm_code/printf.c:228-302 | any number in any base with any flags, width and precision: blanks on one side, the sign and the prefix as far as there is room, and a given number of digits, in the case asked for, that spell the value modulo a power of the base |
| `PrintfFormats.FieldLength` | run_arm_code/printf.c:200-278 | a number without prefix is as long as its width, or as its sign and its digits or precision, whichever is larger |
| `PrintfFormats.IntegerOutput` | run_arm_code/printf.c:684-757 | main result: for every integer specifier, length and set of flags, this is said of the value the argument has in its C type |
| `PrintfFormats.SignedFormat` | run_arm_code/printf.c:721-739 | `%d` and `%i` put out a minus sign if and only if the 32-bit value is negative, and the shortest decimal numeral of its magnitude |
| `PrintfFormats.UnsignedFormats` | run_arm_code/printf.c:693-754 | `%u`, `%x`, `%X`, `%o` and `%b` put out the shortest numeral of the value modulo 2^32 in base 10, 16, 16, 8 and 2, with small letters but for `%X` |
| `PrintfFormats.PointerFormat` | run_arm_code/printf.c:823-839 | `%p` puts out eight hexadecimal digits with capital letters that spell the value |
| `PrintfFormats.TextOutput` | run_arm_code/printf.c:777-821 | `%s` and `%c` of any directive put out the text up to the precision, or the character, in a field of the width |
| `PrintfFormats.TextFormats` | run_arm_code/printf.c:777-821 | `%s` and `%c` with any width: as long as the width or the text, the text at the right end, or at the left with the flag for it, blanks elsewhere |
| `PrintfFormats.PrefixLosesIff` | run_arm_code/printf.c:243-263 | a number with the prefix of its base and no precision loses leading digits if and only if the width equals the number of its digits, or exceeds it by one in base 16 with padding zeros: room is made by dropping what fills the field, zeros or not |
| `PrintfFormats.WholeIff` | run_arm_code/printf.c:243-263 | the digits put out spell the value if and only if it lies below the power of their number |
| `PrintfFormats.PrefixDropsDigits` | run_arm_code/printf.c:243-263 | `%#4x` of 0x1234 puts out 0x34 |
| `AesTable.SubUndone` | case_studies/aes/aes.c:7-25 | the substitution table is a permutation of the bytes |
| `AesInverse.SubIsAffineInverse` | case_studies/aes/aes.c:7-25 | the table looks up the affine map of section 5.1.1 of FIPS 197 of the inverse in the field, zero for zero |
| `Aes.XTimeIsTimesTwo` | case_studies/aes/aes.c:134-137 | doubling in the field, as remainder of the polynomial product |
| `Aes.MixedIsMatrixProduct` | case_studies/aes/aes.c:139-153 | mixing a column is the matrix product of section 5.1.3 of FIPS 197 |
| `Aes.MixUndone` | case_studies/aes/aes.c:139-153 | mixing a column can be undone and undoing it redone |
| `Aes.RoundsBack` | case_studies/aes/aes.c:155-185 | undoing the rounds in reverse gives the state back, from any round on and in both directions |
| `Aes.CipherIsPermutation` | case_studies/aes/aes.c:155-185 | for every key schedule the cipher is a permutation of the blocks |
| `Aes.CipherIsInjective` | case_studies/aes/aes.c:155-185 | in particular it is injective |
| `AesKeys.CipherIsLastState` | case_studies/aes/aes.c:155-169 | the cipher is the sequence of rounds of section 5.1 of FIPS 197, round r adding bytes 16r to 16r + 15 of the schedule |
| `AesKeys.DependsOnPrefix` | case_studies/aes/aes.c:155-169 | the state after round r depends on the first 16(r + 1) bytes of the schedule only |
| `AesKeys.EntersByItsBytes` | case_studies/aes/aes.c:85-95 | schedules that agree before round key r give states after round r that differ by what the round keys differ by; for r = 10 these are the ciphertexts |
| `AesKeys.FirstKeyIsWhitening` | case_studies/aes/aes.c:155-169 | changing the first sixteen bytes of the schedule is the same as changing the block |
| `AesKeys.RowsTurned` | case_studies/aes/aes.c:109-132 | row r of the state is turned left by r columns |
| `AesKeys.ColumnsMixed` | case_studies/aes/aes.c:139-153 | each byte of a mixed column is the product of a row of the matrix of section 5.1.3 with the column |
| `AesKeys.ConstantsArePowers` | case_studies/aes/aes.c:27-30 | the round constants are the powers of x in the field |
| `AesKeys.ScheduleBytes` | case_studies/aes/aes.c:32-82 | the schedule is that of section 5.2 of FIPS 197, byte by byte |
| `AesKeys.RoundKeyDecides` | case_studies/aes/aes.c:32-82 | any one round key decides the key |
| `AesKeys.KeyExpansion` | case_studies/aes/aes.c:32-82 | the loops fill the buffer with the specified schedule |
| `AesKeys.EncryptBlock` | case_studies/aes/aes.c:187-193 | a block enciphered in place under the schedule of a key |
| `Aes.AddRoundKeyInPlace` | case_studies/aes/aes.c:85-95 | adds the round's sixteen key bytes |
| `Aes.SubBytesInPlace` | case_studies/aes/aes.c:97-107 | substitutes every byte |
| `Aes.ShiftRowsInPlace` | case_studies/aes/aes.c:109-132 | turns each row by its number |
| `Aes.MixColumnInPlace` | case_studies/aes/aes.c:141-152 | mixes one column by way of one saved byte, leaving the others |
| `Aes.MixColumnsInPlace` | case_studies/aes/aes.c:139-153 | mixes all four columns |
| `Aes.Cipher` | case_studies/aes/aes.c:155-185 | the sequence of steps on the state array computes the specified cipher |

## Left out

The emulator and the search:

- Decoding and executing single instructions are parameters of the processor; the decoder and the disassembler are not part of this model.
- Time is not wrapped at 2^32; a budget is taken to be smaller.
- Instructions are fetched from flash and stores go to RAM, as in the campaigns; RAM that is executable and flash that instructions may write are not modelled.
- Hooks are called where the emulator calls them and not registered and removed; the end test, the collector and the snapshots are written out in place.
- The exploitability model is a function of state and address. A model that keeps a memory of its own between calls is cloned anew for every fault by the search but not by the replay, and is not covered.
- Permanent faults are given by an abstract verdict of the decoder; in the code it also depends on the IT state the CPU happens to be in, and then only that permitted chains are pushed is stated.
- Simulator.FaultSimulator.SimulatePermanentInstructionFault: exact when the verdict of the decoder does not depend on the state of the CPU; otherwise which static instructions still decode depends on what ran before.
- Simulator.FaultSimulator.SimulateFault: with permanent models exact under the same condition.
- The iteration counter of a fault model sees the fault before it is numbered.
- The shared counter hands each thread its indices as one ascending list; `Threads` shows that this is what it does.
- Gathering the statically known instructions, progress output, file reading and the command line.
- Sorting results is a parameter that keeps the elements; the order of models of different kinds in the code is not a strict order, so models are taken as given.
- The standard library's selection, permutation and sorting routines appear as functions with their mathematical meaning, except where a loop of the source does the work.

Register faults:

- Permanent register faults, whose hook runs inside the execution of an instruction.
- RegisterSimulator.RegisterThread.SimulateRegisterFault: a snapshot is a saved state here; that backups and restores of changed bytes amount to this is `SnapshotRuns.RestoreAfterAnyRun`. RAM is a value, so aliasing of buffers is not captured.
- RegisterReplayTheorem.SearchReplaysIff: a fault that writes an odd address into the program counter before the last clock is not covered; the search aligns the address when it emulates, the replay executes at the odd one, and the two runs part (`RegisterReplayGaps.ReplayMissesOdd`).
- Plans that mix register and instruction models.

The replacement pass:

- Text: lines are instructions, labels and marks. In the script a condition is removed by replacing its letters anywhere in a line, which can also hit an operand or another part of the mnemonic.
- Whole programs with blocks whose `then` and `else` lines alternate: that such a block is not kept is `ReplacementBlocks.PassedIffInOrder`, and the simulation is for blocks that are in order.
- `rrx`, `ldrd`, literal pools and other data between instructions.
- Memory is a map from addresses to bytes or parts of code addresses; where code lies in memory is not modelled, and neither is aligning of word accesses beyond what the instructions demand.
- The spare register is one of r0 to r12, and labels of the source are numbered below those the pass adds.
- Conditional instructions outside IT blocks: what the pass makes of them is modelled but for block transfers, writeback and `adcs`; the simulation is for branches only.

The control-flow pass:

- Reading labels and functions from the text, renaming functions, the second label a function gets behind its check under its old name, and drawing the graph.
- Following calls to compute where functions return: the edges of returns are taken as part of the graph.
- Indirect calls, and calls of functions that are not checked. Labels may follow each other, but not behind a call or where the address of the first one is taken: in the source both stand for one address, in the output not.
- ControlSimulation.LinesPass: directives are not run into; falling through one would leave the rest of its block without code for D.
- ControlRuns.LegalRunsPass: a program is given by what its blocks do, and its predecessors are any; of the lines written it is ControlSimulation.LinesPass.

The remaining parts:

- BlockTransfers.PushPop: condition, advancing of the program counter and the flag that allows unaligned stacks are not modelled.
- Other instructions of the emulator, among them divisions and saturation, where it departs from the architecture.
- Printf.Vsnprintf: conversions of floating-point numbers are a parameter; long and size_t have four bytes and char is unsigned, as on the target; a directive cut short by the end of the format reads the terminator as its specifier, and reading on behind it is not modelled; the index is not wrapped.
- The hash function of the boot loader.
