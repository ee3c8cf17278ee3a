/** Chains that start with permanent faults.  The replay patches the code at its first fetch; from then
    on it is the replay of the transient faults alone, on the patched code. */
module MixedReplay {
  import opened Processor
  import opened Faults
  import opened SearchSpec
  import PermanentSearch
  import opened Replay
  import opened ReplayTheorem

  /** How many faults at the head of a chain are permanent. */
  function Leading(c: Campaign, chain: Chain): (n: nat)
    requires forall f | f in chain :: f.model < |c.library|
    ensures n <= |chain|
    decreases |chain|
  {
    if chain == [] || !c.library[chain[0].model].permanent then 0 else 1 + Leading(c, chain[1..])
  }

  predicate Fits(c: Campaign, code: seq<Byte>, f: Fault) {
    Contains(c.m.flashOffset, |code|, f.address, |f.manipulated|)
  }

  function PatchedBy(c: Campaign, code: seq<Byte>, faults: Chain): (r: seq<Byte>)
    ensures |r| == |code|
    decreases |faults|
  {
    if faults == [] then code
    else
      var f := faults[0];
      PatchedBy(c, if Fits(c, code, f) then Patched(c.m, code, f.address, f.manipulated) else code, faults[1..])
  }

  /** Permanent faults recorded one after the other, each on the code the earlier ones left. */
  ghost predicate Stacked(c: Campaign, code: seq<Byte>, perms: Chain, time: nat)
    decreases |perms|
  {
    perms == [] ||
    (var f := perms[0];
     && Fresh(c, code, f) && c.library[f.model].permanent && f.time == time
     && Stacked(c, Patched(c.m, code, f.address, f.manipulated), perms[1..], time))
  }

  lemma {:induction false} StackedValid(c: Campaign, code: seq<Byte>, perms: Chain, time: nat)
    requires Stacked(c, code, perms, time)
    ensures ValidFaults(c, code, perms)
    ensures forall i | 0 <= i < |perms| :: perms[i].time == time && c.library[perms[i].model].permanent
    decreases |perms|
  {
    if perms != [] {
      StackedValid(c, Patched(c.m, code, perms[0].address, perms[0].manipulated), perms[1..], time);
    }
  }

  lemma {:induction false} StackedAppend(c: Campaign, code: seq<Byte>, perms: Chain, f: Fault, time: nat)
    requires Stacked(c, code, perms, time) && Fresh(c, PatchedBy(c, code, perms), f)
    requires c.library[f.model].permanent && f.time == time
    ensures Stacked(c, code, perms + [f], time)
    ensures PatchedBy(c, code, perms + [f]) == Patched(c.m, PatchedBy(c, code, perms), f.address, f.manipulated)
    decreases |perms|
  {
    if perms == [] {
      assert perms + [f] == [f];
    } else {
      assert (perms + [f])[1..] == perms[1..] + [f];
      StackedAppend(c, Patched(c.m, code, perms[0].address, perms[0].manipulated), perms[1..], f, time);
    }
  }

  lemma {:induction false} RevertedSplit(c: Campaign, code: seq<Byte>, perms: Chain, rest: Chain, time: nat)
    requires ValidFaults(c, code, perms) && ValidFaults(c, code, rest)
    requires forall i | 0 <= i < |perms| :: c.library[perms[i].model].permanent
    ensures ValidFaults(c, code, perms + rest)
    ensures Reverted(c, code, perms + rest, time) == Reverted(c, code, rest, time)
    decreases |perms|
  {
    if perms == [] {
      assert perms + rest == rest;
    } else {
      assert (perms + rest)[1..] == perms[1..] + rest;
      RevertedSplit(c, code, perms[1..], rest, time);
    }
  }

  /** Permanent faults of an earlier clock no longer act. */
  lemma {:induction false} InjectedPast(c: Campaign, code: seq<Byte>, perms: Chain, rest: Chain, time: nat)
    requires ValidFaults(c, code, perms) && ValidFaults(c, code, rest) && Quiet(perms, time)
    ensures ValidFaults(c, code, perms + rest)
    ensures var (code1, rest1) := Injected(c, code, rest, time);
      Injected(c, code, perms + rest, time) == (code1, perms + rest1)
    decreases |perms|
  {
    hide Injected;
    var (code1, rest1) := Injected(c, code, rest, time);
    if perms == [] {
      assert perms + rest == rest && [] + rest1 == rest1;
    } else {
      assert perms + rest == [perms[0]] + (perms[1..] + rest);
      InjectedPast(c, code, perms[1..], rest, time);
      InjectedCons(c, code, perms[0], perms[1..] + rest, time);
      assert perms + rest1 == [perms[0]] + (perms[1..] + rest1);
    }
  }

  lemma {:induction false} StackedHead(c: Campaign, code: seq<Byte>, perms: Chain, rest: Chain, time: nat)
    requires Stacked(c, code, perms, time) && perms != [] && ValidFaults(c, code, rest)
    ensures var f := perms[0];
      && ValidFault(c, code, f) && f.time == time && Refreshed(c, code, f) == f
      && Contains(c.m.flashOffset, |code|, f.address, |f.manipulated|)
      && var patched := Patched(c.m, code, f.address, f.manipulated);
         && Stacked(c, patched, perms[1..], time) && PatchedBy(c, code, perms) == PatchedBy(c, patched, perms[1..])
         && ValidFaults(c, patched, rest)
  {
    hide Splice;
  }

  /** At their own clock they patch the code in order and are recorded unchanged. */
  lemma {:induction false} InjectedStacked(c: Campaign, code: seq<Byte>, perms: Chain, rest: Chain, time: nat)
    requires Stacked(c, code, perms, time) && ValidFaults(c, code, rest)
    ensures ValidFaults(c, code, perms + rest) && ValidFaults(c, PatchedBy(c, code, perms), rest)
    ensures var (code1, rest1) := Injected(c, PatchedBy(c, code, perms), rest, time);
      Injected(c, code, perms + rest, time) == (code1, perms + rest1)
    decreases |perms|
  {
    hide Injected, Stacked, Fresh, Refreshed, Patched, PatchedBy, ValidFault;
    StackedValid(c, code, perms, time);
    if perms == [] {
      NoneInjected(c, code, rest, time);
      assert perms + rest == rest;
    } else {
      StackedHead(c, code, perms, rest, time);
      var patched := Patched(c.m, code, perms[0].address, perms[0].manipulated);
      assert perms + rest == [perms[0]] + (perms[1..] + rest);
      InjectedStacked(c, patched, perms[1..], rest, time);
      SameSize(c, code, patched, perms[1..] + rest);
      InjectedCons(c, code, perms[0], perms[1..] + rest, time);
      var rest1 := Injected(c, PatchedBy(c, code, perms), rest, time).1;
      assert perms + rest1 == [perms[0]] + (perms[1..] + rest1);
    }
  }

  lemma {:induction false} NoneInjected(c: Campaign, code: seq<Byte>, rest: Chain, time: nat)
    requires ValidFaults(c, code, rest)
    ensures PatchedBy(c, code, []) == code
    ensures var (code1, rest1) := Injected(c, code, rest, time); [] + rest1 == rest1
  {
    hide Injected;
  }

  lemma {:induction false} SameSize(c: Campaign, a: seq<Byte>, b: seq<Byte>, faults: Chain)
    requires |a| == |b|
    ensures ValidFaults(c, a, faults) <==> ValidFaults(c, b, faults)
  {
    forall i | 0 <= i < |faults| ensures ValidFault(c, a, faults[i]) <==> ValidFault(c, b, faults[i]) {
    }
  }

  lemma {:induction false} ReplayDropsPast(c: Campaign, s: State, code: seq<Byte>, perms: Chain, rest: Chain,
                                           budget: nat)
    requires ValidFaults(c, code, perms) && ValidFaults(c, code, rest)
    requires forall i | 0 <= i < |perms| :: c.library[perms[i].model].permanent && perms[i].time < s.cpu.time
    ensures ValidFaults(c, code, perms + rest)
    ensures Replayed(c, s, code, perms + rest, budget) == Replayed(c, s, code, rest, budget)
    decreases budget
  {
    hide Reverted, Injected, Fetchable, ExecuteStep;
    RevertedSplit(c, code, perms, rest, s.cpu.time);
    if budget > 0 {
      var code0 := Reverted(c, code, rest, s.cpu.time);
      InjectedPast(c, code0, perms, rest, s.cpu.time);
      var (code1, rest1) := Injected(c, code0, rest, s.cpu.time);
      var t := ExecuteStep(c.m, s, code1);
      if t.ret == Ok {
        ReplayDropsPast(c, t.state, code1, perms, rest1, budget - 1);
      }
    }
  }

  lemma {:induction false} NothingToRevert(c: Campaign, code: seq<Byte>, faults: Chain, time: nat)
    requires ValidFaults(c, code, faults) && forall i | 0 <= i < |faults| :: time <= faults[i].time
    ensures Reverted(c, code, faults, time) == code
    decreases |faults|
  {
    if faults != [] {
      NothingToRevert(c, code, faults[1..], time);
    }
  }

  /** The first fetch of a replay that starts with permanent faults. */
  lemma {:induction false} ReplayStacked(c: Campaign, s: State, code: seq<Byte>, perms: Chain, rest: Chain, budget: nat)
    requires Stacked(c, code, perms, s.cpu.time) && ValidFaults(c, code, rest)
    requires forall i | 0 <= i < |rest| :: s.cpu.time <= rest[i].time
    requires budget > 0 && s.cpu.pc != NO_END && Fetchable(c.m, PatchedBy(c, code, perms), s.cpu.pc)
    ensures ValidFaults(c, code, perms + rest) && ValidFaults(c, PatchedBy(c, code, perms), rest)
    ensures Replayed(c, s, code, perms + rest, budget) <==>
      Fetchable(c.m, code, s.cpu.pc) && Replayed(c, s, PatchedBy(c, code, perms), rest, budget)
  {
    hide Reverted, Injected, Fetchable, ExecuteStep, Stacked, PatchedBy, Stops;
    StackedValid(c, code, perms, s.cpu.time);
    InjectedStacked(c, code, perms, rest, s.cpu.time);
    var code1 := PatchedBy(c, code, perms);
    NothingToRevert(c, code, perms + rest, s.cpu.time);
    NothingToRevert(c, code1, rest, s.cpu.time);
    var (code2, rest2) := Injected(c, code1, rest, s.cpu.time);
    var t := ExecuteStep(c.m, s, code2);
    if t.ret == Ok {
      ReplayDropsPast(c, t.state, code2, perms, rest2, budget - 1);
    }
  }

  /** What is known of a chain the permanent levels have built so far. */
  ghost predicate Built(c: Campaign, code0: seq<Byte>, perms: Chain, s: State, code: seq<Byte>) {
    Stacked(c, code0, perms, s.cpu.time) && PatchedBy(c, code0, perms) == code
  }

  /** A chain pushed from the permanent levels on: permanent faults, then transient ones. */
  ghost predicate Decomposed(c: Campaign, s: State, code0: seq<Byte>, budget: nat, found: Chain, perms: Chain,
                             added: Chain) {
    && found == perms + added && Stacked(c, code0, perms, s.cpu.time)
    && (var code := PatchedBy(c, code0, perms);
       if added == [] then Exploits(Emulated(c.m, s, code, NO_END, budget), c.m)
       else
         && AddedBy(c, s, code, added) && budget > 0 && Fetchable(c.m, code, Aligned(s).cpu.pc)
         && FetchesBehind(c, Aligned(s), code, added)
         && (Replayed(c, Aligned(s), code, added, budget) <==> RevertsInTime(c, Aligned(s), code, added)))
  }

  lemma {:induction false} PushedDecomposes(c: Campaign, level: nat, s: State, code0: seq<Byte>, code: seq<Byte>,
                                            budget: nat, perms: Chain, found: Chain)
      returns (all: Chain, added: Chain)
    requires c.Valid() && KeepsEven(c.m) && level < |c.plan| && Built(c, code0, perms, s, code)
    requires Pushed(c, level, s, code, budget, perms, found)
    ensures Decomposed(c, s, code0, budget, found, all, added)
    decreases |c.plan| - level
  {
    hide Search, Replayed, Run, PatchedBy, RevertsInTime, Fresh, Stacked, Exploits, KeepsEven, Patched, FetchesBehind;
    if !c.Active(level).permanent {
      all := perms;
      assert perms + [] == perms;
      added := SearchReplays(c, level, s, code, budget, perms, [], found);
      assert [] + added == added;
      var fetched := SearchFetches(c, level, s, code, budget, perms, found);
      SameTail(perms, added, fetched);
    } else {
      var site: Site, iteration: nat :| PushedBy(c, level, s, code, budget, perms, found, site, iteration);
      var f: Fault :| Permitted(c, level, s, code, perms, site, iteration, f) &&
        var patched := Patched(c.m, code, f.address, f.manipulated);
        if level + 1 == |c.plan| then found == perms + [f] && Exploits(Emulated(c.m, s, patched, NO_END, budget), c.m)
        else Pushed(c, level + 1, s, patched, budget, perms + [f], found);
      PermittedFresh(c, level, s, code, perms, site, iteration, f);
      StackedAppend(c, code0, perms, f, s.cpu.time);
      if level + 1 == |c.plan| {
        all, added := perms + [f], [];
        assert found == all + [];
      } else {
        all, added := PushedDecomposes(c, level + 1, s, code0, Patched(c.m, code, f.address, f.manipulated), budget,
                                       perms + [f], found);
      }
    }
  }

  lemma {:induction false} SameTail(a: Chain, b: Chain, d: Chain)
    requires a + b == a + d
    ensures b == d
  {
    assert b == (a + b)[|a|..] && d == (a + d)[|a|..];
  }

  lemma {:induction false} PermittedFresh(c: Campaign, level: nat, s: State, code: seq<Byte>, chain: Chain, site: Site,
                                          iteration: nat, f: Fault)
    requires c.Valid() && level < |c.plan| && Permitted(c, level, s, code, chain, site, iteration, f)
    ensures Fresh(c, code, f) && f.model == c.plan[level] && f.time == s.cpu.time
  {
  }

  /** Exactly when the replay of a pushed chain confirms it: the first instruction can be fetched without
      the permanent faults, and no fetch behind a transient fault trips over that fault's bytes. */
  predicate Confirmable(c: Campaign, s: State, code: seq<Byte>, found: Chain)
    requires forall f | f in found :: f.model < |c.library|
  {
    var n := Leading(c, found);
    Fetchable(c.m, code, s.cpu.pc) && RevertsInTime(c, s, PatchedBy(c, code, found[..n]), found[n..])
  }

  lemma {:induction false} LeadingSplit(c: Campaign, perms: Chain, added: Chain)
    requires forall f | f in perms + added :: f.model < |c.library|
    requires forall i | 0 <= i < |perms| :: c.library[perms[i].model].permanent
    requires added == [] || !c.library[added[0].model].permanent
    ensures Leading(c, perms + added) == |perms|
    decreases |perms|
  {
    if perms == [] {
      assert perms + added == added;
    } else {
      assert forall f | f in (perms + added)[1..] :: f in perms + added;
      assert (perms + added)[1..] == perms[1..] + added;
      LeadingSplit(c, perms[1..], added);
    }
  }

  /** Every chain the search pushes, of any order and with permanent and transient instruction faults, is
      judged exploitable by the replay from the initial state with the same budget exactly when it is
      confirmable. */
  lemma {:induction false} PushedIffReplayed(c: Campaign, s: State, code: seq<Byte>, budget: nat, found: Chain)
    requires c.Valid() && KeepsEven(c.m) && |c.plan| > 0
    requires Pushed(c, 0, s, code, budget, [], found)
    ensures ValidFaults(c, code, found) && forall f | f in found :: f.model < |c.library|
    ensures Replayed(c, Aligned(s), code, found, budget) <==> Confirmable(c, Aligned(s), code, found)
  {
    hide Pushed, Replayed, Run, Behind, Fresh, Fetchable, FetchesBehind;
    assert Built(c, code, [], s, code);
    var perms, added := PushedDecomposes(c, 0, s, code, code, budget, [], found);
    var code1 := PatchedBy(c, code, perms);
    var s0 := Aligned(s);
    StackedValid(c, code, perms, s.cpu.time);
    if added == [] {
      assert Recorded(c, code1, []);
      RunFetches(c.m, s0, code1, budget);
      ReplayEnd(c, s0, code1, [], budget);
      assert RevertsInTime(c, s0, code1, []);
    } else {
      RecordedValid(c, code1, added);
    }
    ValidAnyCode(c, code1, code, added);
    ReplayStacked(c, s0, code, perms, added, budget);
    LeadingSplit(c, perms, added);
    assert found[..|perms|] == perms && found[|perms|..] == added;
  }

  /** In particular every chain of the full search, permanent faults and transient ones. */
  lemma {:induction false} FoundIffReplayed(c: Campaign, s: State, code: seq<Byte>, budget: nat, found: Chain)
    requires c.Valid() && KeepsEven(c.m) && |c.plan| > 0
    requires found in PermanentSearch.FullSearch(c, 0, s, code, budget, [], 0)
    ensures ValidFaults(c, code, found) && forall f | f in found :: f.model < |c.library|
    ensures Replayed(c, Aligned(s), code, found, budget) <==> Confirmable(c, Aligned(s), code, found)
  {
    hide PermanentSearch.FullSearch, Pushed, Replayed, Confirmable;
    PermanentSearch.FoundIsPushed(c, 0, s, code, budget, [], 0, found);
    PushedIffReplayed(c, s, code, budget, found);
  }

  lemma {:induction false} ValidAnyCode(c: Campaign, code: seq<Byte>, other: seq<Byte>, faults: Chain)
    requires ValidFaults(c, code, faults) && |code| == |other|
    ensures ValidFaults(c, other, faults)
  {
  }
}
