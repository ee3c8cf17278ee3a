/** The abstract processor.  One clock of the emulator is a deterministic function of the data state
    (CPU and RAM) and the code bytes; `Machine` carries the parts whose details do not matter to the
    fault search: decoding and executing, and judging an end address. */
module Processor {
  type Byte = x: int | 0 <= x < 256 witness 0
  type Word = x: int | 0 <= x < 0x1_0000_0000 witness 0

  const WORD_LIMIT := 0x1_0000_0000

  /** `others` stands for the remaining registers and status words.  Time is not wrapped: a run is
      shorter than 2^32 clocks, so within a run wrapped and unwrapped times identify the same clock. */
  datatype Cpu = Cpu(pc: Word, sp: Word, others: seq<Word>, time: nat)

  datatype State = State(cpu: Cpu, ram: seq<Byte>)

  /** A store together with the stack pointer at the moment the after-write hooks run. */
  datatype Store = Store(address: Word, bytes: seq<Byte>, sp: Word)

  datatype Execution = Undecodable | Executed(cpu: Cpu, stores: seq<Store>, failed: bool)

  datatype Decision = Exploitable | NotExploitable | Continue

  datatype Return = Ok | MaxInstructionsReached | EndAddressReached | StopEmulationCalled | Error

  datatype Machine = Machine(
    ramOffset: Word,
    flashOffset: Word,
    exec: (State, seq<Byte>) -> Execution,
    endAddresses: set<Word>,
    evaluate: (State, Word) -> Decision)

  predicate Contains(offset: Word, size: nat, address: Word, len: nat) {
    offset <= address && address - offset + len <= size
  }

  /** The top five bits of the first halfword decide between two and four bytes. */
  function InstructionSize(code: seq<Byte>, at: nat): nat
    requires at + 2 <= |code|
  {
    if code[at + 1] / 8 in {0x1D, 0x1E, 0x1F} then 4 else 2
  }

  /** The first halfword, read low byte first, is at least 0xE800 for the long instructions: its top five bits are
      11101, 11110 or 11111. */
  lemma {:induction false} SizeByHalfword(code: seq<Byte>, at: nat)
    requires at + 2 <= |code|
    ensures InstructionSize(code, at) == if code[at] as int + 0x100 * code[at + 1] as int >= 0xE800 then 4 else 2
  {
  }

  /** An instruction may be fetched when all its bytes lie in flash. */
  predicate Fetchable(m: Machine, code: seq<Byte>, pc: Word) {
    Contains(m.flashOffset, |code|, pc, 2) &&
    Contains(m.flashOffset, |code|, pc, InstructionSize(code, pc - m.flashOffset))
  }

  /** That is, the first halfword lies in flash, and so does the second one of a long instruction. */
  lemma {:induction false} FetchableIff(m: Machine, code: seq<Byte>, pc: Word)
    ensures Fetchable(m, code, pc) <==>
      var at := pc - m.flashOffset;
      && 0 <= at && at + 2 <= |code|
      && (code[at] as int + 0x100 * code[at + 1] as int >= 0xE800 ==> at + 4 <= |code|)
  {
    var at := pc - m.flashOffset;
    if 0 <= at && at + 2 <= |code| {
      SizeByHalfword(code, at);
    }
  }

  function SizeAt(m: Machine, code: seq<Byte>, pc: Word): nat
    requires Fetchable(m, code, pc)
  {
    InstructionSize(code, pc - m.flashOffset)
  }

  function Splice(bytes: seq<Byte>, at: nat, patch: seq<Byte>): (r: seq<Byte>)
    requires at + |patch| <= |bytes|
    ensures |r| == |bytes|
    ensures forall k | 0 <= k < |r| :: r[k] == if at <= k < at + |patch| then patch[k - at] else bytes[k]
  {
    bytes[..at] + patch + bytes[at + |patch|..]
  }

  predicate Accepted(m: Machine, ramSize: nat, w: Store) {
    |w.bytes| in {1, 2, 4} && Contains(m.ramOffset, ramSize, w.address, |w.bytes|)
  }

  /** RAM after one store; a store outside RAM changes nothing. */
  function Stored(m: Machine, ram: seq<Byte>, w: Store): (r: seq<Byte>)
    ensures |r| == |ram|
  {
    if Accepted(m, |ram|, w) then Splice(ram, w.address - m.ramOffset, w.bytes) else ram
  }

  /** One, two or four bytes that all lie in RAM are written; any other store changes nothing. */
  lemma {:induction false} StoredIs(m: Machine, ram: seq<Byte>, w: Store)
    ensures var at, n := w.address - m.ramOffset, |w.bytes|;
      if (n == 1 || n == 2 || n == 4) && 0 <= at && at + n <= |ram|
      then Stored(m, ram, w) == ram[..at] + w.bytes + ram[at + n..]
      else Stored(m, ram, w) == ram
  {
  }

  function StoredAll(m: Machine, ram: seq<Byte>, ws: seq<Store>): (r: seq<Byte>)
    ensures |r| == |ram|
    decreases |ws|
  {
    if ws == [] then ram else StoredAll(m, Stored(m, ram, ws[0]), ws[1..])
  }

  lemma {:induction false} StoredAllAppend(m: Machine, ram: seq<Byte>, ws: seq<Store>, w: Store)
    ensures StoredAll(m, ram, ws + [w]) == Stored(m, StoredAll(m, ram, ws), w)
    decreases |ws|
  {
    if ws == [] {
    } else {
      assert (ws + [w])[1..] == ws[1..] + [w];
      StoredAllAppend(m, Stored(m, ram, ws[0]), ws[1..], w);
    }
  }

  predicate Stops(m: Machine, s: State) {
    s.cpu.pc in m.endAddresses && m.evaluate(s, s.cpu.pc) != Continue
  }

  /** The result of one clock: `decoded` says the decode hooks ran, `ticked` that time advanced. */
  datatype Tick = Tick(state: State, ret: Return, ticked: bool)

  /** Decoding and executing the instruction at the program counter. */
  function ExecuteStep(m: Machine, s: State, code: seq<Byte>): (t: Tick)
    ensures |t.state.ram| == |s.ram|
    ensures t.ret == Ok || t.ret == Error
    ensures t.ret == Ok ==> t.ticked
    ensures t.ticked ==> t.state.cpu.time == s.cpu.time + 1
    ensures !t.ticked ==> t.state == s
  {
    match m.exec(s, code)
    case Undecodable => Tick(s, Error, false)
    case Executed(cpu, stores, failed) =>
      Tick(State(cpu.(time := s.cpu.time + 1), StoredAll(m, s.ram, stores)), if failed then Error else Ok, true)
  }

  function Clock(m: Machine, s: State, code: seq<Byte>): (t: Tick)
    ensures |t.state.ram| == |s.ram|
    ensures t.ret != MaxInstructionsReached && t.ret != EndAddressReached
    ensures t.ret == Ok ==> t.ticked
    ensures t.ticked ==> t.state.cpu.time == s.cpu.time + 1
    ensures !t.ticked ==> t.state == s
  {
    if !Fetchable(m, code, s.cpu.pc) then Tick(s, Error, false)
    else if Stops(m, s) then Tick(s, StopEmulationCalled, false)
    else ExecuteStep(m, s, code)
  }

  /** A clock fails on what cannot be fetched or decoded, stops at an end address that is judged either way, and
      otherwise executes: its stores reach RAM, registers and time move on, and it fails if execution does. */
  lemma {:induction false} ClockIs(m: Machine, s: State, code: seq<Byte>)
    ensures var t, e := Clock(m, s, code), m.exec(s, code);
      var stop := s.cpu.pc in m.endAddresses && m.evaluate(s, s.cpu.pc) in {Exploitable, NotExploitable};
      if !Fetchable(m, code, s.cpu.pc) then t == Tick(s, Error, false)
      else if stop then t == Tick(s, StopEmulationCalled, false)
      else match e
        case Undecodable => t == Tick(s, Error, false)
        case Executed(cpu, stores, failed) =>
          && t.ticked && t.ret == (if failed then Error else Ok) && t.state.ram == StoredAll(m, s.ram, stores)
          && t.state.cpu == cpu.(time := s.cpu.time + 1)
  {
    hide StoredAll, Fetchable;
  }

  datatype Outcome = Outcome(state: State, ret: Return, steps: nat)

  /** The loop of `emulate`: the budget is tested before the end address. */
  function Run(m: Machine, s: State, code: seq<Byte>, until: Word, max: nat): (o: Outcome)
    ensures |o.state.ram| == |s.ram|
    ensures o.ret != Ok
    ensures o.steps <= max && o.state.cpu.time == s.cpu.time + o.steps
    decreases max
  {
    if max == 0 then Outcome(s, MaxInstructionsReached, 0)
    else if s.cpu.pc == until then Outcome(s, EndAddressReached, 0)
    else
      var t := Clock(m, s, code);
      if t.ret != Ok then Outcome(t.state, t.ret, if t.ticked then 1 else 0)
      else
        var o := Run(m, t.state, code, until, max - 1);
        o.(steps := o.steps + 1)
  }

  /** `emulate` first clears the low bit of the program counter. */
  function Aligned(s: State): State {
    s.(cpu := s.cpu.(pc := s.cpu.pc - s.cpu.pc % 2))
  }

  const NO_END: Word := 1

  function Emulated(m: Machine, s: State, code: seq<Byte>, until: Word, max: nat): Outcome {
    Run(m, Aligned(s), code, until, max)
  }

  /** Emulation is the loop from the even address below. */
  lemma {:induction false} EmulatedIs(m: Machine, s: State, code: seq<Byte>, until: Word, max: nat)
    ensures Emulated(m, s, code, until, max) == Run(m, s.(cpu := s.cpu.(pc := s.cpu.pc / 2 * 2)), code, until, max)
  {
    hide Run;
  }

  /** Executed instructions keep the program counter even. */
  ghost predicate KeepsEven(m: Machine) {
    forall s, code :: var e := m.exec(s, code); e.Executed? ==> e.cpu.pc % 2 == 0
  }

  /** The state after `n` clocks that all succeed. */
  predicate Runs(m: Machine, s: State, code: seq<Byte>, n: nat)
    decreases n
  {
    n == 0 || (Clock(m, s, code).ret == Ok && Runs(m, Clock(m, s, code).state, code, n - 1))
  }

  function After(m: Machine, s: State, code: seq<Byte>, n: nat): (r: State)
    requires Runs(m, s, code, n)
    ensures r.cpu.time == s.cpu.time + n && |r.ram| == |s.ram|
    decreases n
  {
    if n == 0 then s else After(m, Clock(m, s, code).state, code, n - 1)
  }

  /** What a run is: clocks that all succeed, not at the end address, until the budget is used up, the end address
      is reached, or a clock does not succeed; that clock counts if it executed. */
  lemma {:induction false} RunIs(m: Machine, s: State, code: seq<Byte>, until: Word, max: nat) returns (n: nat)
    ensures n <= max && Runs(m, s, code, n)
    ensures forall k: nat | k < n :: Runs(m, s, code, k) && After(m, s, code, k).cpu.pc != until
    ensures var x, o := After(m, s, code, n), Run(m, s, code, until, max);
      if n == max then o == Outcome(x, MaxInstructionsReached, n)
      else if x.cpu.pc == until then o == Outcome(x, EndAddressReached, n)
      else
        var t := Clock(m, x, code);
        t.ret != Ok && o == Outcome(t.state, t.ret, if t.ticked then n + 1 else n)
    decreases max
  {
    hide Clock;
    n := 0;
    if max > 0 && s.cpu.pc != until && Clock(m, s, code).ret == Ok {
      var t := Clock(m, s, code).state;
      var k := RunIs(m, t, code, until, max - 1);
      n := k + 1;
      forall i: nat | i < n
        ensures Runs(m, s, code, i) && After(m, s, code, i).cpu.pc != until
      {
        if i > 0 {
          assert Runs(m, t, code, i - 1) && After(m, t, code, i - 1).cpu.pc != until;
        }
      }
    }
  }

  // ---- What the instruction collector records ---------------------------------------------------

  datatype MemoryRange = MemoryRange(offset: Word, size: Word)
  datatype TimeRange = TimeRange(start: nat, end: nat)

  /** The ranges in which no fault is injected. */
  datatype Ignore = Ignore(memory: seq<MemoryRange>, time: seq<TimeRange>)

  predicate MemoryIgnored(ig: Ignore, address: Word) {
    exists r | r in ig.memory :: r.offset <= address < (r.offset + r.size) % WORD_LIMIT
  }

  predicate TimeIgnored(ig: Ignore, time: nat) {
    exists r | r in ig.time :: r.start <= time < r.end
  }

  predicate Ignored(ig: Ignore, cpu: Cpu) {
    MemoryIgnored(ig, cpu.pc) || TimeIgnored(ig, cpu.time)
  }

  datatype Site = Site(address: Word, size: nat)

  /** What one clock adds: instructions that decode outside the ignored ranges. */
  function CollectedAt(m: Machine, ig: Ignore, s: State, code: seq<Byte>): (r: seq<Site>)
    ensures |r| <= 1
  {
    if Clock(m, s, code).ticked && !Ignored(ig, s.cpu) then [Site(s.cpu.pc, SizeAt(m, code, s.cpu.pc))] else []
  }

  /** The sites collected by the run `Run(m, s, code, until, max)`. */
  function Collected(m: Machine, ig: Ignore, s: State, code: seq<Byte>, until: Word, max: nat): seq<Site>
    decreases max
  {
    if max == 0 || s.cpu.pc == until then []
    else
      var t := Clock(m, s, code);
      var rest := if t.ret == Ok then Collected(m, ig, t.state, code, until, max - 1) else [];
      if CollectedAt(m, ig, s, code) == [] then rest else CollectedAt(m, ig, s, code) + rest
  }
}
