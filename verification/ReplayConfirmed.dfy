/** A condition on where the faults lie under which the replay confirms what the search pushes. */
module ReplayConfirmed {
  import opened Processor
  import opened Faults
  import opened SearchSpec
  import opened Replay
  import opened ReplayTheorem
  import opened MixedReplay

  predicate LongFirst(b: Byte) {
    b / 8 in {0x1D, 0x1E, 0x1F}
  }

  /** What can be fetched from the clean code cannot be fetched from the patched code if and only if it lies in
      the last halfword of flash, and the patch makes that the first half of a long instruction. */
  lemma {:induction false} FetchLostIff(m: Machine, code: seq<Byte>, address: Word, bytes: seq<Byte>, pc: Word)
    requires Contains(m.flashOffset, |code|, address, |bytes|) && Fetchable(m, code, pc)
    ensures !Fetchable(m, Patched(m, code, address, bytes), pc) <==>
      (pc - m.flashOffset + 4 > |code| && address <= pc + 1 < address + |bytes| && LongFirst(bytes[pc + 1 - address]))
  {
  }

  /** The fault leaves a halfword behind it in flash. */
  predicate EndsBefore(c: Campaign, code: seq<Byte>, f: Fault) {
    c.m.flashOffset <= f.address && f.address - c.m.flashOffset + |f.manipulated| + 2 <= |code|
  }

  lemma {:induction false} FetchesRevert(c: Campaign, s: State, code: seq<Byte>, faults: Chain)
    requires FetchesBehind(c, s, code, faults) && forall f | f in faults :: EndsBefore(c, code, f)
    ensures RevertsInTime(c, s, code, faults)
    decreases |faults|
  {
    hide Behind, Fetchable, Patched;
    if faults != [] {
      var f := faults[0];
      assert f in faults && EndsBefore(c, code, f);
      var b := Behind(c, s, code, f);
      FetchLostIff(c.m, code, f.address, f.manipulated, b.cpu.pc);
      FetchesRevert(c, b, code, faults[1..]);
    }
  }

  /** Chains of transient faults, none of which touches the last halfword of flash, are confirmed. */
  lemma {:induction false} TransientConfirmed(c: Campaign, s: State, code: seq<Byte>, budget: nat, found: Chain)
    requires c.Valid() && KeepsEven(c.m) && |c.plan| > 0 && !c.Active(0).permanent
    requires found in Search(c, 0, s, code, budget, [])
    requires forall f | f in found :: EndsBefore(c, code, f)
    ensures ValidFaults(c, code, found) && Replayed(c, Aligned(s), code, found, budget)
  {
    hide Search, Replayed, FetchesBehind, RevertsInTime, Fetchable, EndsBefore, ValidFaults;
    var added := ReplaysFromStart(c, s, code, budget, found);
    var fetched := SearchFetches(c, 0, s, code, budget, [], found);
    NothingBefore(found, added);
    NothingBefore(found, fetched);
    FetchesRevert(c, Aligned(s), code, found);
  }

  lemma {:induction false} NothingBefore(found: Chain, added: Chain)
    requires found == [] + added || found == [] + [] + added
    ensures found == added
  {
  }

  lemma {:induction false} ReplaysFromStart(c: Campaign, s: State, code: seq<Byte>, budget: nat, found: Chain)
    returns (added: Chain)
    requires c.Valid() && KeepsEven(c.m) && |c.plan| > 0 && !c.Active(0).permanent
    requires found in Search(c, 0, s, code, budget, [])
    ensures found == [] + [] + added && ValidFaults(c, code, added)
    ensures Replayed(c, Aligned(s), code, added, budget) <==> RevertsInTime(c, Aligned(s), code, added)
  {
    hide Search, Replayed, RevertsInTime, Fetchable, ValidFault, Fresh, AddedBy;
    var none: Chain := [];
    assert none + none == none;
    added := SearchReplays(c, 0, s, code, budget, [], [], found);
    assert none + added == added;
  }

  /** With permanent faults in front, which the replay injects behind its first fetch, a chain is confirmed if
      and only if that fetch succeeds on the code as it was. */
  lemma {:induction false} PushedConfirmed(c: Campaign, s: State, code: seq<Byte>, budget: nat, found: Chain)
    requires c.Valid() && KeepsEven(c.m) && |c.plan| > 0 && Pushed(c, 0, s, code, budget, [], found)
    requires forall f | f in found && f.model < |c.library| && !c.library[f.model].permanent :: EndsBefore(c, code, f)
    ensures ValidFaults(c, code, found)
    ensures Replayed(c, Aligned(s), code, found, budget) <==> Fetchable(c.m, code, Aligned(s).cpu.pc)
  {
    hide Pushed, Replayed, Run, Behind, Fresh, Fetchable, FetchesBehind, RevertsInTime, EndsBefore, Patched;
    PushedIffReplayed(c, s, code, budget, found);
    assert Built(c, code, [], s, code);
    var perms, added := PushedDecomposes(c, 0, s, code, code, budget, [], found);
    var code1 := PatchedBy(c, code, perms);
    StackedValid(c, code, perms, s.cpu.time);
    LeadingSplit(c, perms, added);
    assert found[..|perms|] == perms && found[|perms|..] == added;
    forall f | f in added ensures EndsBefore(c, code1, f) {
      var i :| 0 <= i < |added| && added[i] == f;
      assert f in found;
      SameRoom(c, code, code1, f);
    }
    NoneBehind(c, Aligned(s), code1);
    FetchesRevert(c, Aligned(s), code1, added);
  }

  lemma {:induction false} NoneBehind(c: Campaign, s: State, code: seq<Byte>)
    ensures FetchesBehind(c, s, code, [])
  {
  }

  lemma {:induction false} SameRoom(c: Campaign, a: seq<Byte>, b: seq<Byte>, f: Fault)
    requires |a| == |b|
    ensures EndsBefore(c, a, f) == EndsBefore(c, b, f)
  {
  }
}
