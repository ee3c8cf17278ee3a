/** Nested snapshots over whole runs: any interleaving of emulation with entering, backing up and
    restoring levels, as long as work on a level abandons the deeper ones. */
module SnapshotRuns {
  import opened Processor
  import opened DirtySpans

  /** `Emulate` stands for any stretch of emulation: its stores, and the CPU state it ends with. */
  datatype Op = Emulate(stores: seq<Store>, cpu: Cpu) | Enter(level: nat) | Backup(level: nat) | Restore(level: nat)

  /** `top` is the deepest level in use. */
  datatype System = System(now: State, saved: seq<Saved>, top: int)

  /** Only the bytes the intervals name are copied. */
  function Copied(dst: seq<Byte>, src: seq<Byte>, d: Dirty, offset: Word): (r: seq<Byte>)
    requires |dst| == |src|
    ensures |r| == |dst|
  {
    seq(|dst|, k requires 0 <= k < |dst| => if Covers(d, offset + k) then src[k] else dst[k])
  }

  ghost predicate Allowed(x: System, op: Op) {
    match op
    case Emulate(_, _) => true
    case Enter(level) => level <= x.top + 1 && level < |x.saved|
    case Backup(level) => level <= x.top
    case Restore(level) => level <= x.top
  }

  ghost predicate Sized(m: Machine, x: System) {
    && m.ramOffset + |x.now.ram| < WORD_LIMIT && AllInside(x.saved, m.ramOffset, |x.now.ram|)
    && -1 <= x.top < |x.saved|
  }

  /** The effect of one operation, hooks included: emulation marks every snapshot, the copies of backup and
      restore mark none. */
  function Apply(m: Machine, x: System, op: Op): System
    requires Sized(m, x) && Allowed(x, op)
  {
    match op
    case Emulate(ws, cpu) =>
      System(State(cpu, StoredAll(m, x.now.ram, ws)),
        seq(|x.saved|, k requires 0 <= k < |x.saved| =>
          x.saved[k].(dirty := MarkedAll(m, |x.now.ram|, x.saved[k].dirty, ws))), x.top)
    case Enter(level) =>
      System(x.now, x.saved[level := Saved(x.now.cpu, x.now.ram, true, CLEAN)], level)
    case Backup(level) =>
      var s := x.saved[level];
      System(x.now, x.saved[level := Saved(x.now.cpu, Copied(s.ram, x.now.ram, s.dirty, m.ramOffset), true, CLEAN)],
             level)
    case Restore(level) =>
      var s := x.saved[level];
      System(State(s.cpu, Copied(x.now.ram, s.ram, s.dirty, m.ramOffset)), x.saved[level := s.(dirty := CLEAN)], level)
  }

  /** The state at each usable level's last backup, kept without any snapshot. */
  function Remember(truth: seq<State>, x: System, op: Op): seq<State>
    requires |truth| == x.top + 1 && Allowed(x, op)
  {
    match op
    case Emulate(_, _) => truth
    case Enter(level) => truth[..level] + [x.now]
    case Backup(level) => truth[..level] + [x.now]
    case Restore(level) => truth[..level + 1]
  }

  ghost predicate Faithful(m: Machine, x: System, truth: seq<State>) {
    && Sized(m, x) && Nested(x.saved, x.top, x.now.ram, m.ramOffset)
    && |truth| == x.top + 1
    && forall k | 0 <= k <= x.top :: truth[k] == State(x.saved[k].cpu, x.saved[k].ram)
  }

  lemma {:induction false} EmulateObserved(m: Machine, x: System, ws: seq<Store>, cpu: Cpu)
    requires Sized(m, x)
    ensures var y := Apply(m, x, Emulate(ws, cpu));
      Sized(m, y) && Observed(x.saved, y.saved, x.now.ram, y.now.ram, m.ramOffset)
  {
    hide Agree, Wider;
    var y := Apply(m, x, Emulate(ws, cpu));
    forall k | 0 <= k < |x.saved|
      ensures Inside(y.saved[k].dirty, m.ramOffset, |x.now.ram|)
      ensures Tracks(x.saved[k].dirty, y.saved[k].dirty, x.now.ram, y.now.ram, m.ramOffset)
    {
      MarkedAllTracks(m, x.saved[k].dirty, x.now.ram, ws);
    }
  }

  lemma {:induction false} CopiedAgrees(dst: seq<Byte>, src: seq<Byte>, d: Dirty, offset: Word)
    requires Agree(dst, src, d, offset)
    ensures Copied(dst, src, d, offset) == src
  {
  }

  lemma {:induction false} AgreeSym(x: seq<Byte>, y: seq<Byte>, d: Dirty, offset: Word)
    requires Agree(x, y, d, offset)
    ensures Agree(y, x, d, offset)
  {
  }

  lemma {:induction false} StepFaithful(m: Machine, x: System, op: Op, truth: seq<State>)
    requires Faithful(m, x, truth) && Allowed(x, op)
    ensures Faithful(m, Apply(m, x, op), Remember(truth, x, op))
    ensures op.Restore? ==> Apply(m, x, op).now == truth[op.level]
  {
    hide Agree, Wider, Copied, MarkedAll, StoredAll, Nested, Observed;
    match op
    case Emulate(ws, cpu) =>
      var y := Apply(m, x, op);
      EmulateObserved(m, x, ws, cpu);
      NestedObserved(x.saved, y.saved, x.top, x.now.ram, y.now.ram, m.ramOffset);
    case Enter(level) =>
      NestedShrink(x.saved, x.top, level - 1, x.now.ram, m.ramOffset);
      NestedBackup(x.saved, level, x.now, m.ramOffset);
    case Backup(level) =>
      TopAgrees(x.saved, x.top, level, x.now.ram, m.ramOffset);
      CopiedAgrees(x.saved[level].ram, x.now.ram, x.saved[level].dirty, m.ramOffset);
      NestedShrink(x.saved, x.top, level - 1, x.now.ram, m.ramOffset);
      NestedBackup(x.saved, level, x.now, m.ramOffset);
    case Restore(level) =>
      TopAgrees(x.saved, x.top, level, x.now.ram, m.ramOffset);
      AgreeSym(x.saved[level].ram, x.now.ram, x.saved[level].dirty, m.ramOffset);
      CopiedAgrees(x.now.ram, x.saved[level].ram, x.saved[level].dirty, m.ramOffset);
      NestedShrink(x.saved, x.top, level, x.now.ram, m.ramOffset);
      NestedRestore(x.saved, level, x.now.ram, m.ramOffset);
  }

  lemma {:induction false} TopAgrees(saved: seq<Saved>, top: int, level: nat, ram: seq<Byte>, offset: Word)
    requires Nested(saved, top, ram, offset) && level <= top
    ensures Agree(saved[level].ram, ram, saved[level].dirty, offset)
  {
  }

  /** A run of operations, each allowed in its turn. */
  ghost predicate AllowedRun(m: Machine, x: System, ops: seq<Op>)
    requires Sized(m, x)
    decreases |ops|
  {
    ops == [] || (Allowed(x, ops[0]) && Sized(m, Apply(m, x, ops[0])) && AllowedRun(m, Apply(m, x, ops[0]), ops[1..]))
  }

  function RunOps(m: Machine, x: System, ops: seq<Op>): System
    requires Sized(m, x) && AllowedRun(m, x, ops)
    decreases |ops|
  {
    if ops == [] then x else RunOps(m, Apply(m, x, ops[0]), ops[1..])
  }

  function Truth(m: Machine, x: System, truth: seq<State>, ops: seq<Op>): seq<State>
    requires Sized(m, x) && AllowedRun(m, x, ops) && |truth| == x.top + 1
    decreases |ops|
  {
    if ops == [] then truth else Truth(m, Apply(m, x, ops[0]), Remember(truth, x, ops[0]), ops[1..])
  }

  /** After any run, restoring any level still in use brings back exactly the CPU state and RAM of that
      level's last backup. */
  lemma {:induction false} RestoreAfterAnyRun(m: Machine, x: System, truth: seq<State>, ops: seq<Op>, level: nat)
    requires Faithful(m, x, truth) && AllowedRun(m, x, ops)
    requires level <= RunOps(m, x, ops).top
    ensures var y := RunOps(m, x, ops);
      && |Truth(m, x, truth, ops)| == y.top + 1
      && Sized(m, y) && Apply(m, y, Restore(level)).now == Truth(m, x, truth, ops)[level]
    decreases |ops|
  {
    hide Faithful, Apply, Remember;
    FaithfulSized(m, x, truth);
    if ops == [] {
      StepFaithful(m, x, Restore(level), truth);
    } else {
      StepFaithful(m, x, ops[0], truth);
      FaithfulSized(m, Apply(m, x, ops[0]), Remember(truth, x, ops[0]));
      RestoreAfterAnyRun(m, Apply(m, x, ops[0]), Remember(truth, x, ops[0]), ops[1..], level);
    }
  }

  lemma {:induction false} FaithfulSized(m: Machine, x: System, truth: seq<State>)
    requires Faithful(m, x, truth)
    ensures Sized(m, x) && |truth| == x.top + 1
  {
  }
}
