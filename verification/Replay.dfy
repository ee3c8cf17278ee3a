/** The simple form: replaying a list of faults from the start.  Faults are injected when the clock shows
    their time; a transient one is taken back at the next fetch, after that fetch has been validated. */
module Replay {
  import opened Processor
  import opened Faults

  /** The first loop of the fetch hook: transient faults of the previous clock are taken back. */
  function Reverted(c: Campaign, code: seq<Byte>, faults: Chain, time: nat): (r: seq<Byte>)
    requires ValidFaults(c, code, faults)
    ensures |r| == |code|
    decreases |faults|
  {
    if faults == [] then code
    else
      var f := faults[0];
      var over := !c.library[f.model].permanent && f.time + 1 == time;
      var code1 := if over then Patched(c.m, code, f.address, f.original) else code;
      Reverted(c, code1, faults[1..], time)
  }

  ghost predicate ValidFault(c: Campaign, code: seq<Byte>, f: Fault) {
    f.model < |c.library| && f.size in {2, 4} && Contains(c.m.flashOffset, |code|, f.address, f.size) &&
      |f.original| == f.size
  }

  ghost predicate ValidFaults(c: Campaign, code: seq<Byte>, faults: Chain) {
    forall i | 0 <= i < |faults| :: ValidFault(c, code, faults[i])
  }

  /** A fault as the hook re-computes it: the original bytes are read again and the model re-applied. */
  function Refreshed(c: Campaign, code: seq<Byte>, f: Fault): (r: Fault)
    requires ValidFault(c, code, f)
    ensures r == f.(original := r.original, manipulated := r.manipulated) && |r.manipulated| == |r.original| == f.size
  {
    Applied(c.library[f.model], f.(original := BytesAt(c.m, code, Site(f.address, f.size))))
  }

  /** The second loop: the faults of this clock are injected one after the other. */
  function Injected(c: Campaign, code: seq<Byte>, faults: Chain, time: nat): (r: (seq<Byte>, Chain))
    requires ValidFaults(c, code, faults)
    ensures |r.0| == |code| && |r.1| == |faults| && ValidFaults(c, r.0, r.1)
    ensures forall i | 0 <= i < |faults| ::
      r.1[i] == faults[i].(original := r.1[i].original, manipulated := r.1[i].manipulated) &&
        (faults[i].time != time ==> r.1[i] == faults[i])
    decreases |faults|
  {
    if faults == [] then (code, [])
    else
      var f := if faults[0].time == time then Refreshed(c, code, faults[0]) else faults[0];
      var code1 := if f.time == time then Patched(c.m, code, f.address, f.manipulated) else code;
      var (code2, rest) := Injected(c, code1, faults[1..], time);
      (code2, [f] + rest)
  }

  lemma {:induction false} InjectedCons(c: Campaign, code: seq<Byte>, f: Fault, tail: Chain, time: nat)
    requires ValidFault(c, code, f) && ValidFaults(c, code, tail)
    ensures ValidFaults(c, code, [f] + tail)
    ensures var f1 := if f.time == time then Refreshed(c, code, f) else f;
      var code1 := if f.time == time then Patched(c.m, code, f1.address, f1.manipulated) else code;
      && ValidFaults(c, code1, tail)
      && Injected(c, code, [f] + tail, time) ==
         (Injected(c, code1, tail, time).0, [f1] + Injected(c, code1, tail, time).1)
  {
    hide Refreshed;
    assert ([f] + tail)[1..] == tail;
  }

  /** Whether the replay ends at an end address judged exploitable within the budget. */
  function Replayed(c: Campaign, s: State, code: seq<Byte>, faults: Chain, budget: nat): bool
    requires ValidFaults(c, code, faults)
    decreases budget
  {
    if budget == 0 || s.cpu.pc == NO_END || !Fetchable(c.m, code, s.cpu.pc) then false
    else if Stops(c.m, s) then c.m.evaluate(s, s.cpu.pc) == Exploitable
    else
      var (code1, faults1) := Injected(c, Reverted(c, code, faults, s.cpu.time), faults, s.cpu.time);
      var t := ExecuteStep(c.m, s, code1);
      t.ret == Ok && Replayed(c, t.state, code1, faults1, budget - 1)
  }
}
