/** The emulator and its snapshots as objects updated in place. */
module Emulation {
  import opened Processor
  import opened DirtySpans

  /** memcpy between two distinct buffers. */
  method CopyBytes(src: array<Byte>, from: nat, dst: array<Byte>, at: nat, n: nat)
    requires src != dst && from + n <= src.Length && at + n <= dst.Length
    modifies dst
    ensures dst[..] == Splice(old(dst[..]), at, src[from..from + n])
  {
    var i := 0;
    while i < n
      invariant 0 <= i <= n
      invariant forall k | 0 <= k < dst.Length :: dst[k] == if at <= k < at + i then src[from + k - at] else old(dst[k])
    {
      dst[at + i] := src[from + i];
      i := i + 1;
    }
  }

  /** One dirty interval: the bytes of RAM it names are copied, from RAM to the saved copy or back. */
  method CopySpan(src: array<Byte>, dst: array<Byte>, start: Word, end: Word, ramOffset: Word)
    requires src != dst && src.Length == dst.Length && SpanInside(Span(start, end), ramOffset, src.Length)
    modifies dst
    ensures forall k | 0 <= k < dst.Length ::
      dst[k] == if InSpan(Span(start, end), ramOffset + k) then src[k] else old(dst[k])
  {
    var size := (end - start) % WORD_LIMIT;
    if size != 0 {
      assert start != end && size == end - start;
      var offset := start - ramOffset;
      CopyBytes(src, offset, dst, offset, size);
      assert forall k | 0 <= k < dst.Length :: dst[k] == dst[..][k];
    }
  }

  /** A copy of CPU state and RAM that is kept up to date incrementally. */
  class Snapshot {
    const ramOffset: Word
    const data: array<Byte>
    var state: Cpu
    var initialized: bool
    var lowChangeStart: Word
    var lowChangeEnd: Word
    var highChangeStart: Word
    var highChangeEnd: Word

    ghost function Dirt(): Dirty
      reads this
    {
      Dirty(Span(lowChangeStart, lowChangeEnd), Span(highChangeStart, highChangeEnd))
    }

    ghost function View(): Saved
      reads this, data
    {
      Saved(state, data[..], initialized, Dirt())
    }

    constructor (ramOffset: Word, ramSize: nat, cpu: Cpu)
      ensures fresh(data) && this.ramOffset == ramOffset && data.Length == ramSize
      ensures !initialized && Dirt() == CLEAN
    {
      this.ramOffset := ramOffset;
      data := new Byte[ramSize];
      state := cpu;
      initialized := false;
      lowChangeStart, lowChangeEnd, highChangeStart, highChangeEnd := 0, 0, 0, 0;
    }

    method Reset()
      modifies this
      ensures View() == old(View()).(initialized := false, dirty := CLEAN)
    {
      lowChangeStart, lowChangeEnd := 0, 0;
      highChangeStart, highChangeEnd := 0, 0;
      initialized := false;
    }

    method OnMemoryWrite(address: Word, size: nat, sp: Word)
      modifies this
      ensures View() == old(View()).(dirty := Marked(old(Dirt()), address, size, sp))
    {
      var spBoundary := (sp - 20 * 4) % WORD_LIMIT;
      var end := (address + size) % WORD_LIMIT;
      if address < spBoundary {
        if lowChangeStart == lowChangeEnd {
          lowChangeStart, lowChangeEnd := address, end;
        } else {
          if address < lowChangeStart {
            lowChangeStart := address;
          }
          if end > lowChangeEnd {
            lowChangeEnd := end;
          }
        }
      } else {
        if highChangeStart == highChangeEnd {
          highChangeStart, highChangeEnd := address, end;
        } else {
          if address < highChangeStart {
            highChangeStart := address;
          }
          if end > highChangeEnd {
            highChangeEnd := end;
          }
        }
      }
    }

    /** Copies the CPU state and the changed bytes of RAM, or all of RAM after a reset. */
    method Backup(cpu: Cpu, ram: array<Byte>)
      requires ram != data && ram.Length == data.Length && Inside(Dirt(), ramOffset, data.Length)
      requires initialized ==> Agree(data[..], ram[..], Dirt(), ramOffset)
      modifies this, data
      ensures View() == BackedUp(old(View()), State(cpu, ram[..]))
    {
      state := cpu;
      if !initialized {
        CopyBytes(ram, 0, data, 0, data.Length);
        initialized := true;
      } else {
        CopySpan(ram, data, lowChangeStart, lowChangeEnd, ramOffset);
        CopySpan(ram, data, highChangeStart, highChangeEnd, ramOffset);
        assert forall k | 0 <= k < data.Length :: old(data[..][k]) == old(data[k]) && ram[..][k] == ram[k];
      }
      assert data[..] == ram[..];
      lowChangeStart, lowChangeEnd := 0, 0;
      highChangeStart, highChangeEnd := 0, 0;
    }

    /** Writes the changed bytes back and hands out the saved CPU state; an uninitialized snapshot changes
        nothing.  The write does not run the hooks of other snapshots. */
    method Restore(cpu: Cpu, ram: array<Byte>) returns (restored: Cpu)
      requires ram != data && ram.Length == data.Length && Inside(Dirt(), ramOffset, data.Length)
      requires initialized ==> Agree(data[..], ram[..], Dirt(), ramOffset)
      modifies this, ram
      ensures old(initialized) ==> View() == old(View()).(dirty := CLEAN) && restored == state && ram[..] == data[..]
      ensures !old(initialized) ==> View() == old(View()) && restored == cpu && ram[..] == old(ram[..])
    {
      if !initialized {
        return cpu;
      }
      restored := state;
      CopySpan(data, ram, lowChangeStart, lowChangeEnd, ramOffset);
      CopySpan(data, ram, highChangeStart, highChangeEnd, ramOffset);
      assert forall k | 0 <= k < data.Length :: data[..][k] == data[k] && old(ram[..][k]) == old(ram[k]);
      assert data[..] == ram[..];
      lowChangeStart, lowChangeEnd := 0, 0;
      highChangeStart, highChangeEnd := 0, 0;
    }
  }

  /** The emulator of one worker thread.  The hooks the fault search registers are inlined where the
      emulator calls them: end detection before a fetch, the collector after decoding, and the snapshots'
      bookkeeping after each accepted store. */
  class Emulator {
    const m: Machine
    const ignore: Ignore
    const ram: array<Byte>
    const flash: array<Byte>
    const snapshots: seq<Snapshot>
    var cpu: Cpu
    var returnCode: Return
    var emulatedTime: nat
    var endReached: bool
    var decision: Decision
    var collecting: bool
    var collected: seq<Site>
    ghost var saved: seq<Saved>  // the values of the snapshots

    /** The objects are distinct and the buffers have matching sizes; nothing here ever changes. */
    ghost predicate Valid() {
      && ram != flash
      && m.ramOffset + ram.Length < WORD_LIMIT
      && (forall i | 0 <= i < |snapshots| ::
           && snapshots[i].data != ram && snapshots[i].data != flash
           && snapshots[i].data.Length == ram.Length && snapshots[i].ramOffset == m.ramOffset)
      && (forall i, j | 0 <= i < j < |snapshots| ::
           snapshots[i] != snapshots[j] && snapshots[i].data != snapshots[j].data)
    }

    ghost function SnapshotObjects(): set<object> {
      set i | 0 <= i < |snapshots| :: snapshots[i]
    }

    ghost function SavedBuffers(): set<object> {
      set i | 0 <= i < |snapshots| :: snapshots[i].data
    }

    ghost function Now(): State
      reads this, ram
    {
      State(cpu, ram[..])
    }

    ghost predicate Ready()
      reads this, SnapshotObjects(), SavedBuffers()
    {
      && Valid()
      && |saved| == |snapshots|
      && (forall i | 0 <= i < |snapshots| :: snapshots[i].View() == saved[i])
      && AllInside(saved, m.ramOffset, ram.Length)
    }

    /** One snapshot for each level, each with a buffer of its own. */
    static method CreateSnapshots(ramOffset: Word, ramSize: nat, cpu: Cpu, levels: nat)
      returns (shots: seq<Snapshot>, ghost views: seq<Saved>)
      ensures |shots| == |views| == levels
      ensures forall i | 0 <= i < levels ::
        && fresh(shots[i]) && fresh(shots[i].data)
        && shots[i].data.Length == ramSize && shots[i].ramOffset == ramOffset
        && shots[i].View() == views[i] && views[i].dirty == CLEAN
      ensures forall i, j | 0 <= i < j < levels :: shots[i] != shots[j] && shots[i].data != shots[j].data
    {
      shots, views := [], [];
      while |shots| < levels
        invariant |shots| == |views| <= levels
        invariant forall i | 0 <= i < |shots| ::
          && fresh(shots[i]) && fresh(shots[i].data)
          && shots[i].data.Length == ramSize && shots[i].ramOffset == ramOffset
          && shots[i].View() == views[i] && views[i].dirty == CLEAN
        invariant forall i, j | 0 <= i < j < |shots| :: shots[i] != shots[j] && shots[i].data != shots[j].data
      {
        var shot := new Snapshot(ramOffset, ramSize, cpu);
        shots := shots + [shot];
        views := views + [shot.View()];
      }
    }

    constructor (m: Machine, ignore: Ignore, cpu: Cpu, ramBytes: seq<Byte>, flashBytes: seq<Byte>, levels: nat)
      requires m.ramOffset + |ramBytes| < WORD_LIMIT
      ensures Ready() && |snapshots| == levels && this.m == m && this.ignore == ignore
      ensures Now() == State(cpu, ramBytes) && flash[..] == flashBytes
      ensures !collecting && !endReached
      ensures fresh(ram) && fresh(flash) && fresh(SnapshotObjects()) && fresh(SavedBuffers())
    {
      var ramBuffer := new Byte[|ramBytes|](i requires 0 <= i < |ramBytes| => ramBytes[i]);
      var flashBuffer := new Byte[|flashBytes|](i requires 0 <= i < |flashBytes| => flashBytes[i]);
      var shots, views := CreateSnapshots(m.ramOffset, |ramBytes|, cpu, levels);
      this.m, this.ignore, this.cpu := m, ignore, cpu;
      ram, flash, snapshots := ramBuffer, flashBuffer, shots;
      returnCode, emulatedTime, endReached, decision, collecting, collected := Ok, 0, false, Continue, false, [];
      saved := views;
    }

    method Backup(level: nat)
      requires Ready() && level < |saved|
      requires saved[level].initialized ==> Agree(saved[level].ram, ram[..], saved[level].dirty, m.ramOffset)
      modifies `saved, snapshots[level], snapshots[level].data
      ensures Ready() && saved == old(saved)[level := BackedUp(old(saved)[level], Now())]
    {
      snapshots[level].Backup(cpu, ram);
      saved := saved[level := BackedUp(saved[level], Now())];
    }

    method Restore(level: nat)
      requires Ready() && level < |saved| && saved[level].initialized
      requires Agree(saved[level].ram, ram[..], saved[level].dirty, m.ramOffset)
      modifies `saved, `cpu, ram, snapshots[level]
      ensures Ready() && saved == old(saved)[level := old(saved)[level].(dirty := CLEAN)]
      ensures Now() == State(saved[level].cpu, saved[level].ram)
    {
      cpu := snapshots[level].Restore(cpu, ram);
      saved := saved[level := saved[level].(dirty := CLEAN)];
    }

    method Reset(level: nat)
      requires Ready() && level < |saved|
      modifies `saved, snapshots[level]
      ensures Ready() && saved == old(saved)[level := old(saved)[level].(initialized := false, dirty := CLEAN)]
    {
      snapshots[level].Reset();
      saved := saved[level := saved[level].(initialized := false, dirty := CLEAN)];
    }

    /** `write_memory` on flash: no hooks run. */
    method WriteFlash(address: Word, bytes: seq<Byte>)
      requires Ready() && Contains(m.flashOffset, flash.Length, address, |bytes|)
      modifies flash
      ensures Ready() && flash[..] == Splice(old(flash[..]), address - m.flashOffset, bytes)
      ensures Now() == old(Now())
    {
      CopyIn(flash, address - m.flashOffset, bytes);
    }

    method RunWriteHooks(w: Store)
      requires Valid() && |saved| == |snapshots|
      requires forall i | 0 <= i < |snapshots| :: snapshots[i].View() == saved[i]
      modifies `saved, SnapshotObjects()
      ensures |saved| == |snapshots| && forall i | 0 <= i < |snapshots| :: snapshots[i].View() == saved[i]
      ensures forall i | 0 <= i < |snapshots| ::
        saved[i] == old(saved[i]).(dirty := Marked(old(saved[i].dirty), w.address, |w.bytes|, w.sp))
    {
      var i := 0;
      while i < |snapshots|
        invariant 0 <= i <= |snapshots| == |saved|
        invariant forall k | 0 <= k < |snapshots| :: snapshots[k].View() == saved[k]
        invariant forall k | 0 <= k < |snapshots| ::
          saved[k] == if k < i
            then old(saved[k]).(dirty := Marked(old(saved[k].dirty), w.address, |w.bytes|, w.sp))
            else old(saved[k])
      {
        snapshots[i].OnMemoryWrite(w.address, |w.bytes|, w.sp);
        saved := saved[i := saved[i].(dirty := Marked(saved[i].dirty, w.address, |w.bytes|, w.sp))];
        i := i + 1;
      }
    }

    method WriteMemoryInternal(w: Store)
      requires Ready()
      modifies `saved, ram, SnapshotObjects()
      ensures Ready() && ram[..] == Stored(m, old(ram[..]), w)
      ensures Observed(old(saved), saved, old(ram[..]), ram[..], m.ramOffset)
    {
      ghost var v0, ram0 := saved, ram[..];
      if Accepted(m, ram.Length, w) {
        CopyIn(ram, w.address - m.ramOffset, w.bytes);
        RunWriteHooks(w);
        forall k | 0 <= k < |v0|
          ensures |saved[k].ram| == |ram0| && Inside(saved[k].dirty, m.ramOffset, |ram0|)
          ensures Tracks(v0[k].dirty, saved[k].dirty, ram0, Stored(m, ram0, w), m.ramOffset)
        {
          MarkedTracks(m, v0[k].dirty, ram0, w);
        }
      }
    }

    /** The detection hook: an end address that the exploitability model does not wave through. */
    method DetectEndOfExecution()
      modifies `decision, `endReached, `returnCode
      ensures endReached == (old(endReached) || Stops(m, Now()))
      ensures Stops(m, Now()) ==> decision == m.evaluate(Now(), cpu.pc) && returnCode == StopEmulationCalled
      ensures !Stops(m, Now()) ==> returnCode == old(returnCode)
    {
      if cpu.pc in m.endAddresses {
        decision := m.evaluate(State(cpu, ram[..]), cpu.pc);
        if decision != Continue {
          endReached := true;
          returnCode := StopEmulationCalled;
        }
      }
    }

    /** The decode hook of `get_instruction_order`. */
    method InstructionCollector(site: Site)
      modifies `collected
      ensures collected == old(collected) +
        if MemoryIgnored(ignore, site.address) || TimeIgnored(ignore, cpu.time) then [] else [site]
    {
      var i := 0;
      while i < |ignore.memory|
        invariant 0 <= i <= |ignore.memory|
        invariant collected == old(collected)
        invariant !MemoryIgnored(Ignore(ignore.memory[..i], []), site.address)
      {
        var range := ignore.memory[i];
        if range.offset <= site.address && site.address < (range.offset + range.size) % WORD_LIMIT {
          return;
        }
        assert ignore.memory[..i + 1] == ignore.memory[..i] + [range];
        i := i + 1;
      }
      assert ignore.memory[..i] == ignore.memory;
      i := 0;
      while i < |ignore.time|
        invariant 0 <= i <= |ignore.time|
        invariant collected == old(collected)
        invariant !TimeIgnored(Ignore([], ignore.time[..i]), cpu.time)
      {
        var range := ignore.time[i];
        if range.start <= cpu.time && cpu.time < range.end {
          return;
        }
        assert ignore.time[..i + 1] == ignore.time[..i] + [range];
        i := i + 1;
      }
      assert ignore.time[..i] == ignore.time;
      collected := collected + [site];
    }

    method Execute(e: Execution)
      requires Ready() && e.Executed?
      modifies this, ram, SnapshotObjects()
      ensures Ready() && ram[..] == StoredAll(m, old(ram[..]), e.stores)
      ensures Observed(old(saved), saved, old(ram[..]), ram[..], m.ramOffset)
      ensures cpu == e.cpu.(time := old(cpu.time)) && returnCode == if e.failed then Error else old(returnCode)
      ensures emulatedTime == old(emulatedTime) && unchanged(`endReached, `decision, `collecting, `collected)
    {
      var i := 0;
      while i < |e.stores|
        invariant 0 <= i <= |e.stores|
        invariant Ready() && ram[..] == StoredAll(m, old(ram[..]), e.stores[..i])
        invariant Observed(old(saved), saved, old(ram[..]), ram[..], m.ramOffset)
        invariant cpu == old(cpu) && returnCode == old(returnCode)
        invariant unchanged(`emulatedTime, `endReached, `decision, `collecting, `collected)
      {
        label L:
        WriteMemoryInternal(e.stores[i]);
        ObservedTrans(old(saved), old@L(saved), saved, old(ram[..]), old@L(ram[..]), ram[..], m.ramOffset);
        StoredAllAppend(m, old(ram[..]), e.stores[..i], e.stores[i]);
        assert e.stores[..i + 1] == e.stores[..i] + [e.stores[i]];
        i := i + 1;
      }
      assert e.stores[..i] == e.stores;
      cpu := e.cpu.(time := cpu.time);
      if e.failed {
        returnCode := Error;
      }
    }

    /** The rest of a clock once the fetch hooks have let it through. */
    method DecodeAndExecute(ghost s: State, ghost code: seq<Byte>)
      requires Ready() && returnCode == Ok && s == Now() && code == flash[..]
      requires collecting ==> Fetchable(m, code, s.cpu.pc)
      modifies this, ram, SnapshotObjects()
      ensures collecting == old(collecting) && endReached == old(endReached) && decision == old(decision)
      ensures var t := ExecuteStep(m, s, code);
        && Now() == t.state && returnCode == t.ret
        && emulatedTime == old(emulatedTime) + (if t.ticked then 1 else 0)
        && collected == old(collected) +
          if collecting && t.ticked && !Ignored(ignore, s.cpu) then [Site(s.cpu.pc, SizeAt(m, code, s.cpu.pc))] else []
      ensures Ready() && Observed(old(saved), saved, s.ram, ram[..], m.ramOffset)
    {
      hide Observed, AllInside, StoredAll;
      ghost var v := saved;
      ObservedRefl(v, s.ram, m.ramOffset);
      var e := m.exec(State(cpu, ram[..]), flash[..]);
      if e.Undecodable? {
        returnCode := Error;
        return;
      }
      if collecting {
        InstructionCollector(Site(cpu.pc, SizeAt(m, flash[..], cpu.pc)));
      }
      Execute(e);
      assert Observed(v, saved, s.ram, ram[..], m.ramOffset);
      cpu := cpu.(time := cpu.time + 1);
      emulatedTime := emulatedTime + 1;
    }

    /** One clock of the CPU. */
    method ClockCpu(ghost s: State, ghost code: seq<Byte>)
      requires Ready() && returnCode == Ok && s == Now() && code == flash[..]
      modifies this, ram, SnapshotObjects()
      ensures var t := Clock(m, s, code);
        && Now() == t.state && returnCode == t.ret
        && emulatedTime == old(emulatedTime) + (if t.ticked then 1 else 0)
        && endReached == (old(endReached) || t.ret == StopEmulationCalled)
        && (t.ret == StopEmulationCalled ==> decision == m.evaluate(t.state, t.state.cpu.pc))
      ensures collecting == old(collecting)
      ensures collected == old(collected) + if collecting then CollectedAt(m, ignore, s, code) else []
      ensures Ready() && Observed(old(saved), saved, old(ram[..]), ram[..], m.ramOffset)
    {
      hide Observed, AllInside, ExecuteStep;
      ghost var v := saved;
      ObservedRefl(v, s.ram, m.ramOffset);
      if !Fetchable(m, flash[..], cpu.pc) {
        returnCode := Error;
        return;
      }
      DetectEndOfExecution();
      if returnCode != Ok {
        return;
      }
      DecodeAndExecute(s, code);
    }

    /** What the loop of `Emulate` has established: the part already run and the part still to run make
        up the whole run. */
    ghost predicate Underway(whole: Outcome, sites: seq<Site>, code: seq<Byte>, until: Word, max: nat)
      reads this, ram
    {
      && emulatedTime <= max
      && if returnCode == Ok then
           var rest := Run(m, Now(), code, until, max - emulatedTime);
           && whole == rest.(steps := rest.steps + emulatedTime)
           && (collecting ==> sites == collected + Collected(m, ignore, Now(), code, until, max - emulatedTime))
         else
           && whole == Outcome(Now(), returnCode, emulatedTime)
           && (collecting ==> sites == collected)
    }

    /** One round of the loop of `emulate` whose tests let the clock run. */
    method Advance(ghost whole: Outcome, ghost sites: seq<Site>, ghost code: seq<Byte>, ghost until: Word,
                   ghost max: nat)
      requires Ready() && flash[..] == code && returnCode == Ok
      requires Underway(whole, sites, code, until, max) && emulatedTime < max && cpu.pc != until
      modifies this, ram, SnapshotObjects()
      ensures Ready() && collecting == old(collecting)
      ensures Underway(whole, sites, code, until, max) && emulatedTime <= max
      ensures Observed(old(saved), saved, old(ram[..]), ram[..], m.ramOffset)
      ensures endReached == (old(endReached) || returnCode == StopEmulationCalled)
      ensures returnCode == StopEmulationCalled ==> decision == m.evaluate(Now(), cpu.pc)
      ensures !collecting ==> collected == old(collected)
      ensures returnCode == Ok ==> emulatedTime == old(emulatedTime) + 1
    {
      hide Clock, CollectedAt, Observed, AllInside;
      ghost var s, v, r := Now(), saved, ram[..];
      ClockCpu(s, code);
      assert Observed(v, saved, r, ram[..], m.ramOffset);
    }

    /** Nothing is left of a run once its budget is used up, or at its end address. */
    lemma {:induction false} NothingLeft(whole: Outcome, sites: seq<Site>, code: seq<Byte>, until: Word, max: nat)
      requires returnCode == Ok && Underway(whole, sites, code, until, max)
      requires emulatedTime == max || cpu.pc == until
      ensures whole ==
        Outcome(Now(), if emulatedTime == max then MaxInstructionsReached else EndAddressReached, emulatedTime)
      ensures collecting ==> sites == collected
    {
      assert collected + [] == collected;
    }

    lemma {:induction false} UnderwayFrom(whole: Outcome, sites: seq<Site>, code: seq<Byte>, until: Word, max: nat)
      requires returnCode == Ok && emulatedTime == 0 && whole == Run(m, Now(), code, until, max)
      requires sites == collected + Collected(m, ignore, Now(), code, until, max)
      ensures Underway(whole, sites, code, until, max)
    {
      hide Run, Collected;
    }

    lemma {:induction false} UnderwayEnded(whole: Outcome, sites: seq<Site>, code: seq<Byte>, until: Word, max: nat)
      requires returnCode != Ok && Underway(whole, sites, code, until, max)
      ensures whole == Outcome(Now(), returnCode, emulatedTime) && (collecting ==> sites == collected)
    {
    }

    /** Runs until an error, a stop, the end address, or the instruction budget. */
    method Emulate(until: Word, maxInstructions: nat)
      requires Ready()
      modifies this, ram, SnapshotObjects()
      ensures var o := Emulated(m, old(Now()), flash[..], until, maxInstructions);
        && Now() == o.state && returnCode == o.ret && emulatedTime == o.steps
        && endReached == (old(endReached) || o.ret == StopEmulationCalled)
        && (o.ret == StopEmulationCalled ==> decision == m.evaluate(o.state, o.state.cpu.pc))
      ensures collecting == old(collecting)
      ensures collected == old(collected) +
        if collecting then Collected(m, ignore, Aligned(old(Now())), flash[..], until, maxInstructions) else []
      ensures Ready() && Observed(old(saved), saved, old(ram[..]), ram[..], m.ramOffset)
    {
      hide Clock, CollectedAt, Observed, AllInside, Run, Collected, Underway;
      ghost var code, v0, ram0 := flash[..], saved, ram[..];
      ObservedRefl(v0, ram0, m.ramOffset);
      ghost var start := Aligned(Now());
      ghost var whole := Run(m, start, code, until, maxInstructions);
      ghost var sites := collected + Collected(m, ignore, start, code, until, maxInstructions);
      returnCode := Ok;
      emulatedTime := 0;
      cpu := cpu.(pc := cpu.pc - cpu.pc % 2);
      UnderwayFrom(whole, sites, code, until, maxInstructions);
      while returnCode == Ok
        invariant Ready() && flash[..] == code && collecting == old(collecting)
        invariant Observed(v0, saved, ram0, ram[..], m.ramOffset)
        invariant Underway(whole, sites, code, until, maxInstructions) && emulatedTime <= maxInstructions
        invariant returnCode != Ok ==>
          whole == Outcome(Now(), returnCode, emulatedTime) && (collecting ==> sites == collected)
        invariant endReached == (old(endReached) || returnCode == StopEmulationCalled)
        invariant returnCode == StopEmulationCalled ==> decision == m.evaluate(Now(), cpu.pc)
        invariant !collecting ==> collected == old(collected)
        decreases returnCode == Ok, maxInstructions - emulatedTime
      {
        if emulatedTime >= maxInstructions {
          NothingLeft(whole, sites, code, until, maxInstructions);
          returnCode := MaxInstructionsReached;
          break;
        }
        if cpu.pc == until {
          NothingLeft(whole, sites, code, until, maxInstructions);
          returnCode := EndAddressReached;
          break;
        }
        ghost var v, r := saved, ram[..];
        Advance(whole, sites, code, until, maxInstructions);
        ObservedTrans(v0, v, saved, ram0, r, ram[..], m.ramOffset);
        if returnCode != Ok {
          UnderwayEnded(whole, sites, code, until, maxInstructions);
        }
      }
    }
  }

  method CopyIn(dst: array<Byte>, at: nat, bytes: seq<Byte>)
    requires at + |bytes| <= dst.Length
    modifies dst
    ensures dst[..] == Splice(old(dst[..]), at, bytes)
  {
    var i := 0;
    while i < |bytes|
      invariant 0 <= i <= |bytes|
      invariant forall k | 0 <= k < dst.Length :: dst[k] == if at <= k < at + i then bytes[k - at] else old(dst[k])
    {
      dst[at + i] := bytes[i];
      i := i + 1;
    }
  }
}