/** Replaying a list of register faults from the start.  The replay injects and takes back in its fetch
    hook, behind the test for an end address. */
module RegisterReplay {
  import opened Processor
  import opened RegisterSearch

  /** The first loop of the hook: transient faults of the previous clock are taken back. */
  function Undone(c: RegisterCampaign, cpu: Cpu, faults: RegisterChain, time: nat): Cpu
    requires ValidChain(c, faults)
    decreases |faults|
  {
    if faults == [] then cpu
    else
      var f := faults[0];
      var next :=
        if c.library[f.model].transient && time == f.time + 1
        then WriteRegister(c.kept, cpu, f.reg, f.original) else cpu;
      Undone(c, next, faults[1..], time)
  }

  /** A fault as the hook re-computes it: the register is read again and the model re-applied. */
  function Refreshed(c: RegisterCampaign, cpu: Cpu, f: RegisterFault): RegisterFault
    requires f.model < |c.library|
  {
    Applied(c.library[f.model], f.(original := ReadRegister(cpu, f.reg), manipulated := 0))
  }

  /** The second loop: the faults of this clock are injected one after the other. */
  function Injected(c: RegisterCampaign, cpu: Cpu, faults: RegisterChain, time: nat): (r: (Cpu, RegisterChain))
    requires ValidChain(c, faults)
    ensures |r.1| == |faults| && ValidChain(c, r.1)
    decreases |faults|
  {
    if faults == [] then (cpu, [])
    else
      var f := if faults[0].time == time then Refreshed(c, cpu, faults[0]) else faults[0];
      var next := if faults[0].time == time then WriteRegister(c.kept, cpu, f.reg, f.manipulated) else cpu;
      var rest := Injected(c, next, faults[1..], time);
      (rest.0, [f] + rest.1)
  }

  /** The verdict of the replay. */
  predicate Replayed(c: RegisterCampaign, s: State, code: seq<Byte>, faults: RegisterChain, budget: nat)
    requires ValidChain(c, faults)
    decreases budget, 1
  {
    if budget == 0 || s.cpu.pc == NO_END || !Fetchable(c.m, code, s.cpu.pc) then false
    else if Stops(c.m, s) then c.m.evaluate(s, s.cpu.pc) == Exploitable
    else Resumed(c, s.(cpu := Undone(c, s.cpu, faults, s.cpu.time)), code, faults, 0, budget, s.cpu.pc)
  }

  /** The rest of a clock fetched at `address`, once the first `j` faults are dealt with; a program counter
      changed by the hook is fetched from again. */
  predicate Resumed(c: RegisterCampaign, s: State, code: seq<Byte>, faults: RegisterChain, j: nat, budget: nat,
                    address: Word)
    requires ValidChain(c, faults) && j <= |faults| && budget > 0
    decreases budget, 0
  {
    var (cpu, next) := Injected(c, s.cpu, faults[j..], s.cpu.time);
    && (cpu.pc == address || Fetchable(c.m, code, cpu.pc))
    && var t := ExecuteStep(c.m, s.(cpu := cpu), code);
       t.ret == Ok && Replayed(c, t.state, code, faults[..j] + next, budget - 1)
  }

  // ---- The replay as it runs --------------------------------------------------------------------

  class RegisterTracer {
    const c: RegisterCampaign
    const timeout: nat
    var faults: RegisterChain

    constructor (c: RegisterCampaign, timeout: nat, faults: RegisterChain)
      ensures this.c == c && this.timeout == timeout && this.faults == faults
    {
      this.c, this.timeout, this.faults := c, timeout, faults;
    }

    /** The fetch hook. */
    method HandleRegisterFaults(was: Cpu) returns (cpu: Cpu)
      requires ValidChain(c, faults)
      modifies this
      ensures (cpu, faults) == Injected(c, Undone(c, was, old(faults), was.time), old(faults), was.time)
    {
      hide WriteRegister, Refreshed;
      ghost var all := Undone(c, was, faults, was.time);
      cpu := was;
      var i := 0;
      while i < |faults|
        invariant 0 <= i <= |faults| && faults == old(faults)
        invariant all == Undone(c, cpu, faults[i..], was.time)
      {
        var f := faults[i];
        if c.library[f.model].transient && was.time == f.time + 1 {
          cpu := WriteRegister(c.kept, cpu, f.reg, f.original);
        }
        assert faults[i..][1..] == faults[i + 1..];
        i := i + 1;
      }
      ghost var whole := Injected(c, cpu, faults, was.time);
      i := 0;
      assert faults[0..] == faults && faults[..0] + whole.1 == whole.1;
      while i < |faults|
        invariant 0 <= i <= |faults| == |old(faults)| && ValidChain(c, faults)
        invariant var rest := Injected(c, cpu, faults[i..], was.time); whole == (rest.0, faults[..i] + rest.1)
      {
        InjectNext(was.time, cpu, i, whole);
        assert faults[i := faults[i]] == faults;
        if faults[i].time == was.time {
          faults := faults[i := Refreshed(c, cpu, faults[i])];
          cpu := WriteRegister(c.kept, cpu, faults[i].reg, faults[i].manipulated);
        }
        i := i + 1;
      }
      assert faults[..i] + [] == faults;
    }

    /** One round of the second loop. */
    lemma {:induction false} InjectNext(time: nat, cpu: Cpu, i: nat, whole: (Cpu, RegisterChain))
      requires ValidChain(c, faults) && i < |faults|
      requires var rest := Injected(c, cpu, faults[i..], time); whole == (rest.0, faults[..i] + rest.1)
      ensures var f := faults[i];
        var g := if f.time == time then Refreshed(c, cpu, f) else f;
        var next := if f.time == time then WriteRegister(c.kept, cpu, g.reg, g.manipulated) else cpu;
        var now := faults[i := g];
        && ValidChain(c, now)
        && var rest := Injected(c, next, now[i + 1..], time); whole == (rest.0, now[..i + 1] + rest.1)
    {
      hide ReadRegister, WriteRegister;
      var f := faults[i];
      var g := if f.time == time then Refreshed(c, cpu, f) else f;
      var now := faults[i := g];
      var rest := Injected(c, if f.time == time then WriteRegister(c.kept, cpu, g.reg, g.manipulated) else cpu,
                           faults[i + 1..], time).1;
      assert faults[..i] + ([g] + rest) == (faults[..i] + [g]) + rest;
      assert faults[i..][1..] == faults[i + 1..] == now[i + 1..];
      assert now[..i + 1] == faults[..i] + [now[i]];
      assert forall k | 0 <= k < |now| :: now[k].model == faults[k].model && faults[k] in faults;
    }

    /** Replays the list from a given state; the memory of code is only read. */
    method Verify(start: State, code: seq<Byte>) returns (exploitable: bool)
      requires ValidChain(c, faults)
      modifies this
      ensures exploitable == Replayed(c, Aligned(start), code, old(faults), timeout)
    {
      hide Undone, Injected, ExecuteStep, Fetchable;
      var now, left := Aligned(start), timeout;
      while left > 0 && now.cpu.pc != NO_END
        invariant ValidChain(c, faults)
        invariant Replayed(c, Aligned(start), code, old(faults), timeout) == Replayed(c, now, code, faults, left)
      {
        var address := now.cpu.pc;
        if !Fetchable(c.m, code, address) {
          return false;
        }
        if now.cpu.pc in c.m.endAddresses {
          var decision := c.m.evaluate(now, address);
          if decision != Continue {
            return decision == Exploitable;
          }
        }
        ghost var was := faults;
        assert was[0..] == was && was[..0] == [];
        var cpu := HandleRegisterFaults(now.cpu);
        assert was[..0] + faults == faults;
        UndoneTime(c, now.cpu, was, now.cpu.time);
        if cpu.pc != address && !Fetchable(c.m, code, cpu.pc) {
          return false;
        }
        var t := ExecuteStep(c.m, now.(cpu := cpu), code);
        if t.ret != Ok {
          return false;
        }
        now, left := t.state, left - 1;
      }
      return false;
    }
  }

  lemma {:induction false} UndoneTime(c: RegisterCampaign, cpu: Cpu, faults: RegisterChain, time: nat)
    requires ValidChain(c, faults)
    ensures Undone(c, cpu, faults, time).time == cpu.time
    decreases |faults|
  {
    if faults != [] {
      var f := faults[0];
      var next :=
        if c.library[f.model].transient && time == f.time + 1
        then WriteRegister(c.kept, cpu, f.reg, f.original) else cpu;
      UndoneTime(c, next, faults[1..], time);
    }
  }
}
