/** The verification mode of the fault tracer as it runs: a copy of the emulator whose fetch hook injects
    and takes back the faults of the list. */
module Tracer {
  import opened Processor
  import opened Emulation
  import opened Faults
  import opened Replay

  class FaultTracer {
    const c: Campaign
    const timeout: nat
    var faults: Chain

    constructor (c: Campaign, timeout: nat, faults: Chain)
      ensures this.c == c && this.timeout == timeout && this.faults == faults
    {
      this.c, this.timeout, this.faults := c, timeout, faults;
    }

    ghost predicate Tracing(emu: Emulator)
      reads this, emu, emu.flash, emu.SnapshotObjects(), emu.SavedBuffers()
    {
      emu.m == c.m && emu.Ready() && emu.snapshots == [] && !emu.collecting && ValidFaults(c, emu.flash[..], faults)
    }

    method RevertFaults(emu: Emulator, time: nat)
      requires Tracing(emu)
      modifies emu.flash
      ensures Tracing(emu) && emu.Now() == old(emu.Now())
      ensures emu.flash[..] == Reverted(c, old(emu.flash[..]), faults, time)
    {
      hide Reverted, Emulator.Ready, ValidFault;
      ghost var code := emu.flash[..];
      var i := 0;
      assert faults[0..] == faults;
      while i < |faults|
        invariant 0 <= i <= |faults| && Tracing(emu) && emu.Now() == old(emu.Now())
        invariant Reverted(c, emu.flash[..], faults[i..], time) == Reverted(c, code, faults, time)
      {
        RevertNext(emu, time, i);
        i := i + 1;
      }
      assert faults[i..] == [];
      RevertedNone(c, emu.flash[..], time);
    }

    lemma {:induction false} RevertedNone(c: Campaign, code: seq<Byte>, time: nat)
      ensures Reverted(c, code, [], time) == code
    {
    }

    lemma {:induction false} RevertRound(code: seq<Byte>, i: nat, time: nat)
      requires ValidFaults(c, code, faults) && i < |faults|
      ensures var f := faults[i];
        var code1 :=
          if !c.library[f.model].permanent && f.time + 1 == time
          then Patched(c.m, code, f.address, f.original) else code;
        ValidFaults(c, code1, faults[i + 1..]) &&
        Reverted(c, code1, faults[i + 1..], time) == Reverted(c, code, faults[i..], time)
    {
      hide Patched;
      assert faults[i..][0] == faults[i] && faults[i..][1..] == faults[i + 1..];
    }

    /** One round of the first loop. */
    method RevertNext(emu: Emulator, time: nat, i: nat)
      requires Tracing(emu) && i < |faults|
      modifies emu.flash
      ensures Tracing(emu) && emu.Now() == old(emu.Now())
      ensures Reverted(c, emu.flash[..], faults[i + 1..], time) == Reverted(c, old(emu.flash[..]), faults[i..], time)
    {
      hide Reverted;
      RevertRound(emu.flash[..], i, time);
      var f := faults[i];
      if !c.library[f.model].permanent && f.time + 1 == time {
        emu.WriteFlash(f.address, f.original);
      }
    }

    /** The outcome of the second loop when the first i faults are dealt with. */
    ghost function InjectedFrom(code: seq<Byte>, list: Chain, i: nat, time: nat): (seq<Byte>, Chain)
      requires ValidFaults(c, code, list) && i <= |list|
    {
      var rest := Injected(c, code, list[i..], time);
      (rest.0, list[..i] + rest.1)
    }

    lemma {:induction false} InjectedEnds(code: seq<Byte>, list: Chain, time: nat)
      requires ValidFaults(c, code, list)
      ensures InjectedFrom(code, list, 0, time) == Injected(c, code, list, time)
      ensures InjectedFrom(code, list, |list|, time) == (code, list)
    {
      hide Refreshed;
      assert list[0..] == list && list[..0] + Injected(c, code, list, time).1 == Injected(c, code, list, time).1;
      assert list[|list|..] == [] && list[..|list|] + [] == list;
    }

    /** The second loop of the fetch hook. */
    method InjectFaults(emu: Emulator, time: nat)
      requires Tracing(emu)
      modifies emu.flash, this`faults
      ensures Tracing(emu) && emu.Now() == old(emu.Now())
      ensures (emu.flash[..], faults) == Injected(c, old(emu.flash[..]), old(faults), time)
    {
      hide InjectedFrom, Emulator.Ready, ValidFault;
      ghost var whole := InjectedFrom(emu.flash[..], faults, 0, time);
      InjectedEnds(emu.flash[..], faults, time);
      var i := 0;
      while i < |faults|
        invariant 0 <= i <= |faults| == |old(faults)| && Tracing(emu) && emu.Now() == old(emu.Now())
        invariant InjectedFrom(emu.flash[..], faults, i, time) == whole
      {
        InjectNext(emu, time, i);
        i := i + 1;
      }
      InjectedEnds(emu.flash[..], faults, time);
    }

    lemma {:induction false} ValidAt(code: seq<Byte>, list: Chain, i: nat)
      requires ValidFaults(c, code, list) && i < |list|
      ensures ValidFault(c, code, list[i]) && ValidFaults(c, code, list[i + 1..])
    {
      hide ValidFault;
    }

    /** A fault re-computed keeps the list valid, also on code of the same size. */
    lemma {:induction false} StaysValid(code: seq<Byte>, code1: seq<Byte>, list: Chain, i: nat, f: Fault)
      requires ValidFaults(c, code, list) && i < |list| && |code1| == |code| && |f.original| == f.size
      requires f == list[i].(original := f.original, manipulated := f.manipulated)
      ensures ValidFaults(c, code1, list[i := f])
    {
    }

    lemma {:induction false} Lengths(code: seq<Byte>, f: Fault)
      requires ValidFault(c, code, f)
      ensures |f.original| == f.size
      ensures var g := Refreshed(c, code, f);
        && Contains(c.m.flashOffset, |code|, g.address, |g.manipulated|)
        && |Patched(c.m, code, g.address, g.manipulated)| == |code|
    {
      hide Refreshed;
    }

    /** A fault of another time is passed over. */
    lemma {:induction false} PassedOver(code: seq<Byte>, list: Chain, i: nat, time: nat)
      requires ValidFaults(c, code, list) && i < |list| && list[i].time != time
      ensures InjectedFrom(code, list, i, time) == InjectedFrom(code, list, i + 1, time)
    {
      hide Injected, Refreshed, ValidFault;
      ValidAt(code, list, i);
      assert list[i..] == [list[i]] + list[i + 1..] && list[..i + 1] == list[..i] + [list[i]];
      InjectedCons(c, code, list[i], list[i + 1..], time);
      Moves(list[..i], list[i], Injected(c, code, list[i + 1..], time).1);
    }

    lemma {:induction false} Moves(front: Chain, f: Fault, rest: Chain)
      ensures front + ([f] + rest) == (front + [f]) + rest
    {
    }

    /** A fault that is due is re-computed and injected. */
    lemma {:induction false} TakenUp(code: seq<Byte>, list: Chain, i: nat, time: nat)
      requires ValidFaults(c, code, list) && i < |list| && list[i].time == time && ValidFault(c, code, list[i])
      ensures var f := Refreshed(c, code, list[i]);
        && Contains(c.m.flashOffset, |code|, f.address, |f.manipulated|)
        && var code1 := Patched(c.m, code, f.address, f.manipulated);
           && |code1| == |code| && ValidFaults(c, code1, list[i := f])
           && InjectedFrom(code1, list[i := f], i + 1, time) == InjectedFrom(code, list, i, time)
    {
      hide Injected, Refreshed, Patched, ValidFault, ValidFaults;
      ValidAt(code, list, i);
      Lengths(code, list[i]);
      var f := Refreshed(c, code, list[i]);
      var now := list[i := f];
      StaysValid(code, Patched(c.m, code, f.address, f.manipulated), list, i, f);
      assert list[i..] == [list[i]] + list[i + 1..];
      InjectedCons(c, code, list[i], list[i + 1..], time);
      assert now[i + 1..] == list[i + 1..] && now[..i + 1] == list[..i] + [f];
      Moves(list[..i], f, Injected(c, Patched(c.m, code, f.address, f.manipulated), list[i + 1..], time).1);
    }

    /** A fault with the original bytes read again and the model re-applied. */
    method Refresh(emu: Emulator, f: Fault) returns (g: Fault)
      requires emu.m == c.m && emu.Ready() && ValidFault(c, emu.flash[..], f)
      ensures g == Refreshed(c, emu.flash[..], f)
    {
      hide Emulator.Ready;
      g := f.(original := emu.flash[f.address - c.m.flashOffset..f.address - c.m.flashOffset + f.size]);
      g := Applied(c.library[f.model], g);
    }

    /** One round of the second loop. */
    method InjectNext(emu: Emulator, time: nat, i: nat)
      requires Tracing(emu) && i < |faults|
      modifies emu.flash, this`faults
      ensures Tracing(emu) && emu.Now() == old(emu.Now()) && |faults| == |old(faults)|
      ensures InjectedFrom(emu.flash[..], faults, i + 1, time) == old(InjectedFrom(emu.flash[..], faults, i, time))
    {
      hide InjectedFrom, Refreshed, ValidFault, ValidFaults;
      ghost var code := emu.flash[..];
      if faults[i].time == time {
        ValidAt(code, faults, i);
        TakenUp(code, faults, i, time);
        var f := Refresh(emu, faults[i]);
        emu.WriteFlash(f.address, f.manipulated);
        faults := faults[i := f];
      } else {
        PassedOver(code, faults, i, time);
      }
    }

    /** Replays the list from a copy of `emulator`; the emulator itself is not changed. */
    method Verify(emulator: Emulator) returns (exploitable: bool)
      requires emulator.Ready() && emulator.m == c.m && ValidFaults(c, emulator.flash[..], faults)
      modifies this`faults
      ensures exploitable == Replayed(c, Aligned(old(emulator.Now())), emulator.flash[..], old(faults), timeout)
    {
      hide Fetchable, ExecuteStep, Reverted, Injected, Stops, ValidFault;
      var emu := new Emulator(c.m, c.ignore, emulator.cpu, emulator.ram[..], emulator.flash[..], 0);
      ghost var expected := Replayed(c, Aligned(emu.Now()), emu.flash[..], faults, timeout);
      emu.cpu := emu.cpu.(pc := emu.cpu.pc - emu.cpu.pc % 2);
      emu.returnCode, emu.emulatedTime := Ok, 0;
      while emu.returnCode == Ok
        invariant Tracing(emu) && fresh(emu) && fresh(emu.ram) && fresh(emu.flash) && emu.emulatedTime <= timeout
        invariant emu.returnCode == Ok ==>
          !emu.endReached && expected == Replayed(c, emu.Now(), emu.flash[..], faults, timeout - emu.emulatedTime)
        invariant emu.returnCode != Ok ==> expected == (emu.endReached && emu.decision == Exploitable)
        decreases emu.returnCode == Ok, timeout - emu.emulatedTime
      {
        if emu.emulatedTime >= timeout {
          emu.returnCode := MaxInstructionsReached;
          break;
        }
        if emu.cpu.pc == NO_END {
          emu.returnCode := EndAddressReached;
          break;
        }
        ClockCpu(emu);
      }
      exploitable := emu.endReached && emu.decision == Exploitable;
    }

    method ClockCpu(emu: Emulator)
      requires Tracing(emu) && emu.returnCode == Ok && !emu.endReached && emu.cpu.pc != NO_END
      modifies emu, emu.ram, emu.flash, this`faults
      ensures Tracing(emu)
      ensures emu.returnCode == Ok ==> emu.emulatedTime == old(emu.emulatedTime) + 1 && !emu.endReached
      ensures emu.emulatedTime <= old(emu.emulatedTime) + 1
      ensures forall budget: nat | budget > 0 ::
        Replayed(c, old(emu.Now()), old(emu.flash[..]), old(faults), budget) ==
          if emu.returnCode == Ok then Replayed(c, emu.Now(), emu.flash[..], faults, budget - 1)
          else emu.endReached && emu.decision == Exploitable
    {
      if !Fetchable(c.m, emu.flash[..], emu.cpu.pc) {
        emu.returnCode := Error;
        return;
      }
      emu.DetectEndOfExecution();
      RevertFaults(emu, emu.cpu.time);
      InjectFaults(emu, emu.cpu.time);
      if emu.returnCode != Ok {
        return;
      }
      emu.DecodeAndExecute(emu.Now(), emu.flash[..]);
    }
  }
}
