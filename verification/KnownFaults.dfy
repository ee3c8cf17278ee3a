/** What a campaign remembers from one entry of its plan to the next, and that pruning with it loses
    nothing. */
module KnownFaults {
  import opened Processor
  import opened Faults
  import opened SearchSpec
  import opened PermanentSearch
  import opened ReplayTheorem
  import InjectionPlan
  import opened Redundancy

  type Known = seq<Chain>

  /** When a chain is redundant given the known ones: at least when it is one of them, and the more are
      known the more is redundant.  Containing a known chain is such a test. */
  type Test = (Known, Chain) -> bool

  ghost predicate SensibleTest(redundant: Test) {
    && (forall known: Known, chain: Chain | chain in known :: redundant(known, chain))
    && (forall less: Known, more: Known, chain: Chain | (forall f | f in less :: f in more) && redundant(less, chain) ::
          redundant(more, chain))
  }

  /** A setting: the campaign without its plan, and the run it searches.  `tidy` sorts the merged results of
      the threads and drops duplicates. */
  datatype Setting = Setting(c: Campaign, redundant: Test, tidy: Known -> Known, s: State, code: seq<Byte>,
                             budget: nat) {
    ghost predicate Sensible() {
      SensibleTest(redundant) && forall list: Known, x: Chain :: x in tidy(list) <==> x in list
    }

    /** The plan names models of the library, permanent ones first. */
    ghost predicate Fits(plan: seq<nat>) {
      c.(plan := plan).Valid()
    }

    /** The library lists the models of the plan, and static instructions have two or four bytes. */
    ghost predicate Describes(models: seq<InjectionPlan.Entry>) {
      && (forall x | x in c.sites :: x.size in {2, 4})
      && |models| == |c.library| && forall i | 0 <= i < |models| :: models[i].permanent == c.library[i].permanent
    }

    function Entry(plan: seq<nat>, known: Known): Campaign {
      c.(plan := plan, redundant := chain => redundant(known, chain))
    }

    /** What the simulation of one entry finds. */
    ghost function Found(plan: seq<nat>, known: Known): seq<Chain>
      requires Fits(plan) && plan != []
    {
      tidy(FullSearch(Entry(plan, known), 0, s, code, budget, [], 0))
    }

    /** The chains an entry is tested against: those of its last model alone, then those of the entry
        without it. */
    ghost function KnownFor(plan: seq<nat>): Known
      requires Fits(plan) && plan != []
      decreases |plan|, 0
    {
      var n := |plan| - 1;
      if n == 0 then [] else Memo([plan[n]]) + Memo(plan[..n])
    }

    /** What is remembered of an entry. */
    ghost function Memo(plan: seq<nat>): Known
      requires Fits(plan) && plan != []
      decreases |plan|, 1
    {
      KnownFor(plan) + Found(plan, KnownFor(plan))
    }
  }

  // ---- A shorter plan finds the shorter chains --------------------------------------------------

  /** The same campaign with the first `n` models of the plan and no more chains redundant. */
  ghost predicate Shortened(c: Campaign, d: Campaign, n: nat) {
    && c.Valid() && 0 < n <= |c.plan|
    && d == c.(plan := c.plan[..n], redundant := d.redundant)
    && forall chain: Chain | d.redundant(chain) :: c.redundant(chain)
  }

  /** Where a found chain comes from. */
  lemma {:induction false} Origin(c: Campaign, level: nat, s: State, code: seq<Byte>, budget: nat, chain: Chain,
                                  found: Chain)
      returns (i: nat, iteration: nat)
    requires c.Valid() && level < |c.plan| && found in Search(c, level, s, code, budget, chain)
    ensures i < |Sites(c, s, code, budget)|
    ensures var site, p := Sites(c, s, code, budget)[i], Walk(c, s, code, budget, Sites(c, s, code, budget), i);
      && InFlash(c.m, code, site) && site.size in {2, 4} && p.remaining >= 0
      && ValidChain(c, chain) && !FaultedPermanently(c, chain, site.address)
      && iteration < Iterations(c, level, p.state.cpu.time, code, site)
      && found in Trial(c, level, p.state, code, p.remaining, chain, site, iteration)
  {
    hide Trial, Walk, Sites, Iterations, FaultedPermanently;
    i := FoundInVisit(c, level, s, code, budget, chain, UpTo(|Sites(c, s, code, budget)|), found);
    var site, p := Sites(c, s, code, budget)[i], Walk(c, s, code, budget, Sites(c, s, code, budget), i);
    iteration := FoundInTrials(c, level, p.state, code, p.remaining, chain, site,
                               Iterations(c, level, p.state.cpu.time, code, site), found);
  }

  /** A found chain is not redundant, and has at most one fault for each model still to be injected. */
  lemma {:induction false} FoundIsFresh(c: Campaign, level: nat, s: State, code: seq<Byte>, budget: nat, chain: Chain,
                                        found: Chain)
    requires c.Valid() && level < |c.plan| && found in Search(c, level, s, code, budget, chain)
    ensures !c.redundant(found) && |chain| < |found| <= |chain| + |c.plan| - level
    decreases |c.plan| - level
  {
    hide Search, Walk, Sites, Iterations, FaultedPermanently, FaultedStep, Hits;
    var i, iteration := Origin(c, level, s, code, budget, chain, found);
    var site, p := Sites(c, s, code, budget)[i], Walk(c, s, code, budget, Sites(c, s, code, budget), i);
    var f := Applied(c.Active(level), Blank(c, level, p.state.cpu.time, code, site, iteration));
    if found != chain + [f] {
      var o := FaultedStep(c, p.state, code, f);
      FoundIsFresh(c, level + 1, o.state, code, p.remaining - 1, chain + [f], found);
    }
  }

  lemma {:induction false} WalkSame(c: Campaign, d: Campaign, s: State, code: seq<Byte>, budget: nat, sites: seq<Site>,
                                    i: int)
    requires c.m == d.m && -1 <= i < |sites|
    ensures Walk(c, s, code, budget, sites, i) == Walk(d, s, code, budget, sites, i)
    decreases i + 1
  {
    hide Run;
    if i >= 0 {
      WalkSame(c, d, s, code, budget, sites, i - 1);
    }
  }

  lemma {:induction false} PrefixFinds(c: Campaign, d: Campaign, n: nat, level: nat, s: State, code: seq<Byte>,
                                       budget: nat, chain: Chain, found: Chain)
    requires Shortened(c, d, n) && |chain| == level < n && |found| <= n
    requires found in Search(c, level, s, code, budget, chain)
    ensures d.Valid() && found in Search(d, level, s, code, budget, chain)
    decreases n - level, 1
  {
    hide Search, Walk, Iterations, FaultedPermanently, FaultedStep, Hits, Trial;
    var i, iteration := Origin(c, level, s, code, budget, chain, found);
    var sites := Sites(c, s, code, budget);
    var site, p := sites[i], Walk(c, s, code, budget, sites, i);
    WalkSame(c, d, s, code, budget, sites, i);
    TrialSame(c, d, n, level, p.state, code, p.remaining, chain, site, iteration, found);
    SameSettings(c, d, n, level, p.state.cpu.time, code, chain, site);
    TrialInTrials(d, level, p.state, code, p.remaining, chain, site,
                  Iterations(d, level, p.state.cpu.time, code, site), iteration, found);
    IntoSearch(d, level, s, code, budget, chain, i, found);
  }

  lemma {:induction false} IntoSearch(c: Campaign, level: nat, s: State, code: seq<Byte>, budget: nat, chain: Chain,
                                      i: nat, found: Chain)
    requires c.Valid() && level < |c.plan| && i < |Sites(c, s, code, budget)|
    requires var sites := Sites(c, s, code, budget);
      found in Visit(c, level, Walk(c, s, code, budget, sites, i), code, chain, sites[i])
    ensures found in Search(c, level, s, code, budget, chain)
  {
    hide Visit, Walk, Sites;
    VisitInVisits(c, level, s, code, budget, chain, UpTo(|Sites(c, s, code, budget)|), i, found);
  }

  lemma {:induction false} SameSettings(c: Campaign, d: Campaign, n: nat, level: nat, time: nat, code: seq<Byte>,
                                        chain: Chain, site: Site)
    requires Shortened(c, d, n) && level < n && InFlash(c.m, code, site) && ValidChain(c, chain)
    ensures d.Valid() && level < |d.plan| && c.Active(level) == d.Active(level) && c.m == d.m && ValidChain(d, chain)
    ensures Iterations(c, level, time, code, site) == Iterations(d, level, time, code, site)
    ensures FaultedPermanently(c, chain, site.address) == FaultedPermanently(d, chain, site.address)
  {
  }

  lemma {:induction false} TrialSame(c: Campaign, d: Campaign, n: nat, level: nat, s: State, code: seq<Byte>,
                                     remaining: nat, chain: Chain, site: Site, iteration: nat, found: Chain)
    requires Shortened(c, d, n) && |chain| == level < n && |found| <= n
    requires InFlash(c.m, code, site) && site.size in {2, 4} && ValidChain(c, chain)
    requires found in Trial(c, level, s, code, remaining, chain, site, iteration)
    ensures d.Valid() && found in Trial(d, level, s, code, remaining, chain, site, iteration)
    decreases n - level, 0
  {
    hide Search, Run, Iterations, FaultedPermanently;
    SameSettings(c, d, n, level, s.cpu.time, code, chain, site);
    var f := Applied(c.Active(level), Blank(c, level, s.cpu.time, code, site, iteration));
    var o := FaultedStep(c, s, code, f);
    if !Hits(c, o, code, remaining) {
      FoundIsFresh(c, level + 1, o.state, code, remaining - 1, chain + [f], found);
      PrefixFinds(c, d, n, level + 1, o.state, code, remaining - 1, chain + [f], found);
    }
  }

  // ---- The same behind permanent faults ---------------------------------------------------------

  /** Where a chain found by a permanent model comes from, and what follows its fault. */
  lemma {:induction false} PermanentOrigin(c: Campaign, level: nat, s: State, code: seq<Byte>, budget: nat,
                                           chain: Chain, from: nat, found: Chain)
      returns (index: nat, iteration: nat, f: Fault)
    requires c.Valid() && level < |c.plan| && c.Active(level).permanent
    requires found in FullSearch(c, level, s, code, budget, chain, from)
    ensures from <= index < |c.sites| && Injects(c, level, s, code, chain, index, iteration, f)
    ensures found in PermanentRun(c, level, s, Patched(c.m, code, f.address, f.manipulated), budget, chain + [f], index)
  {
    hide PermanentRun, PermanentVisits, Skipped, Iterations;
    index, iteration := FromPermanentVisits(c, level, s, code, budget, chain, Range(from, |c.sites|), found);
    f := Applied(c.Active(level), Blank(c, level, s.cpu.time, code, c.sites[index], iteration));
  }

  /** The permanent model of the level injects `f` at a static instruction. */
  ghost predicate Injects(c: Campaign, level: nat, s: State, code: seq<Byte>, chain: Chain, index: nat, iteration: nat,
                          f: Fault) {
    && c.Valid() && level < |c.plan| && index < |c.sites| && InFlash(c.m, code, c.sites[index])
    && (forall g | g in chain :: g.address != c.sites[index].address)
    && iteration < Iterations(c, level, s.cpu.time, code, c.sites[index])
    && var blank := Blank(c, level, s.cpu.time, code, c.sites[index], iteration);
       f == Applied(c.Active(level), blank) && !Skipped(c, level, chain, blank) &&
         c.decodes(s.cpu, c.sites[index].address, f.manipulated)
  }

  lemma {:induction false} IntoFullSearch(c: Campaign, level: nat, s: State, code: seq<Byte>, budget: nat, chain: Chain,
                                          from: nat, index: nat, iteration: nat, f: Fault, found: Chain)
    requires c.Valid() && level < |c.plan| && c.Active(level).permanent
    requires from <= index && Injects(c, level, s, code, chain, index, iteration, f)
    requires found in PermanentRun(c, level, s, Patched(c.m, code, f.address, f.manipulated), budget, chain + [f],
                                   index)
    ensures found in FullSearch(c, level, s, code, budget, chain, from)
  {
    hide PermanentRun, PermanentVisits, Skipped, Iterations;
    IntoPermanentVisits(c, level, s, code, budget, chain, Range(from, |c.sites|), index - from, iteration, found);
  }

  function NextFrom(c: Campaign, level: nat, index: nat): nat
    requires level + 1 < |c.plan|
  {
    if c.plan[level + 1] == c.plan[level] then index + 1 else 0
  }

  lemma {:induction false} FullIsFresh(c: Campaign, level: nat, s: State, code: seq<Byte>, budget: nat, chain: Chain,
                                       from: nat, found: Chain)
    requires c.Valid() && level < |c.plan| && found in FullSearch(c, level, s, code, budget, chain, from)
    ensures !c.redundant(found) && |chain| < |found| <= |chain| + |c.plan| - level
    decreases |c.plan| - level
  {
    hide Search, FullSearch, Iterations, Run;
    if c.Active(level).permanent {
      var index, iteration, f := PermanentOrigin(c, level, s, code, budget, chain, from, found);
      if level + 1 < |c.plan| {
        FullIsFresh(c, level + 1, s, Patched(c.m, code, f.address, f.manipulated), budget, chain + [f],
                    NextFrom(c, level, index), found);
      }
    } else {
      TransientFull(c, level, s, code, budget, chain, from);
      FoundIsFresh(c, level, s, code, budget, chain, found);
    }
  }

  lemma {:induction false} TransientFull(c: Campaign, level: nat, s: State, code: seq<Byte>, budget: nat, chain: Chain,
                                         from: nat)
    requires c.Valid() && level < |c.plan| && !c.Active(level).permanent
    ensures FullSearch(c, level, s, code, budget, chain, from) == Search(c, level, s, code, budget, chain)
  {
  }

  lemma {:induction false} FullPrefixFinds(c: Campaign, d: Campaign, n: nat, level: nat, s: State, code: seq<Byte>,
                                           budget: nat, chain: Chain, from: nat, found: Chain)
    requires Shortened(c, d, n) && |chain| == level < n && |found| <= n
    requires found in FullSearch(c, level, s, code, budget, chain, from)
    ensures d.Valid() && found in FullSearch(d, level, s, code, budget, chain, from)
    decreases n - level
  {
    hide Search, FullSearch, Run;
    if c.Active(level).permanent {
      var index, iteration, f := PermanentOrigin(c, level, s, code, budget, chain, from, found);
      var patched := Patched(c.m, code, f.address, f.manipulated);
      InjectsSame(c, d, n, level, s, code, chain, index, iteration, f);
      if level + 1 < |c.plan| {
        FullIsFresh(c, level + 1, s, patched, budget, chain + [f], NextFrom(c, level, index), found);
        FullPrefixFinds(c, d, n, level + 1, s, patched, budget, chain + [f], NextFrom(c, level, index), found);
      }
      IntoFullSearch(d, level, s, code, budget, chain, from, index, iteration, f, found);
    } else {
      TransientFull(c, level, s, code, budget, chain, from);
      PrefixFinds(c, d, n, level, s, code, budget, chain, found);
      TransientFull(d, level, s, code, budget, chain, from);
    }
  }

  lemma {:induction false} InjectsSame(c: Campaign, d: Campaign, n: nat, level: nat, s: State, code: seq<Byte>,
                                       chain: Chain, index: nat, iteration: nat, f: Fault)
    requires Shortened(c, d, n) && level < n && Injects(c, level, s, code, chain, index, iteration, f)
    ensures Injects(d, level, s, code, chain, index, iteration, f) && c.Active(level) == d.Active(level)
  {
  }

  // ---- The remembered lists ---------------------------------------------------------------------

  /** Every chain an entry adds has one fault for each model of the entry. */
  lemma {:induction false} AddedIsFull(t: Setting, plan: seq<nat>, found: Chain)
    requires t.Sensible() && t.Fits(plan) && plan != [] && found in t.Found(plan, t.KnownFor(plan))
    ensures |found| == |plan|
  {
    hide FullSearch, SensibleTest;
    var known := t.KnownFor(plan);
    var c := t.Entry(plan, known);
    FullIsFresh(c, 0, t.s, t.code, t.budget, [], 0, found);
    var n := |plan| - 1;
    if |found| <= n {
      var prefix := plan[..n];
      var d := t.Entry(prefix, t.KnownFor(prefix));
      assert forall f | f in t.KnownFor(prefix) :: f in known;
      LessRedundant(t, prefix, plan);
      FullPrefixFinds(c, d, n, 0, t.s, t.code, t.budget, [], 0, found);
      assert found in t.Memo(prefix);
      SelfRedundant(t, known, found);
      assert false;
    }
  }

  lemma {:induction false} SelfRedundant(t: Setting, known: Known, found: Chain)
    requires t.Sensible() && found in known
    ensures t.redundant(known, found)
  {
  }

  lemma {:induction false} LessRedundant(t: Setting, prefix: seq<nat>, plan: seq<nat>)
    requires t.Sensible() && t.Fits(plan) && t.Fits(prefix) && plan != [] && prefix != []
    requires forall f | f in t.KnownFor(prefix) :: f in t.KnownFor(plan)
    ensures forall chain: Chain | t.redundant(t.KnownFor(prefix), chain) :: t.redundant(t.KnownFor(plan), chain)
  {
  }

  ghost predicate Ascending(list: Known, most: nat) {
    && (forall f | f in list :: 0 < |f| <= most)
    && forall i, j | 0 <= i < j < |list| :: |list[i]| <= |list[j]|
  }

  lemma {:induction false} AscendingAppend(a: Known, b: Known, most: nat, below: nat)
    requires Ascending(a, below) && Ascending(b, most) && below <= most && forall f | f in b :: below <= |f|
    ensures Ascending(a + b, most)
  {
  }

  /** What an entry is tested against is ordered by size, none empty and all shorter than the entry. */
  lemma {:induction false} KnownAscends(t: Setting, plan: seq<nat>)
    requires t.Sensible() && t.Fits(plan) && plan != []
    ensures Ascending(t.KnownFor(plan), |plan| - 1)
    decreases |plan|, 0
  {
    hide SensibleTest;
    var n := |plan| - 1;
    if n > 0 {
      MemoAscends(t, [plan[n]]);
      MemoAscends(t, plan[..n]);
      AscendingAppend(t.Memo([plan[n]]), t.Memo(plan[..n]), n, 1);
    }
  }

  lemma {:induction false} MemoAscends(t: Setting, plan: seq<nat>)
    requires t.Sensible() && t.Fits(plan) && plan != []
    ensures Ascending(t.Memo(plan), |plan|)
    decreases |plan|, 1
  {
    hide SensibleTest, FullSearch;
    KnownAscends(t, plan);
    var more := t.Found(plan, t.KnownFor(plan));
    forall f | f in more
      ensures |f| == |plan|
    {
      AddedIsFull(t, plan, f);
    }
    AscendingAppend(t.KnownFor(plan), more, |plan|, |plan| - 1);
  }

  // ---- The redundancy index is such a test ------------------------------------------------------

  function IdOf(f: Fault): InstructionId {
    InstructionId(f.model, f.address, f.time, f.iteration)
  }

  /** What faults are compared by. */
  function Key(chain: Chain): (r: Combination)
    ensures r.Size() == |chain|
  {
    Combination(seq(|chain|, i requires 0 <= i < |chain| => IdOf(chain[i])), [])
  }

  function Keys(known: Known): (r: seq<Combination>)
    ensures |r| == |known| && forall i | 0 <= i < |r| :: r[i] == Key(known[i])
  {
    seq(|known|, i requires 0 <= i < |known| => Key(known[i]))
  }

  /** Some known chain can be read off the chain in order. */
  ghost predicate Contains(known: Known, chain: Chain) {
    exists f | f in known :: Included(Key(chain), Key(f))
  }

  /** The faults of `f` are faults of the chain at ascending places, the same in model, address, time and iteration;
      the bytes do not count. */
  predicate ReadsOff(chain: Chain, f: Chain, at: seq<nat>) {
    && |at| == |f| && (forall i, j | 0 <= i < j < |at| :: at[i] < at[j])
    && forall i | 0 <= i < |at| ::
         at[i] < |chain| && chain[at[i]].model == f[i].model && chain[at[i]].address == f[i].address &&
         chain[at[i]].time == f[i].time && chain[at[i]].iteration == f[i].iteration
  }

  lemma {:induction false} PicksAre(chain: Chain, f: Chain, at: seq<nat>)
    ensures Picks(Key(chain).instructionFaults, Key(f).instructionFaults, at) <==> ReadsOff(chain, f, at)
  {
  }

  lemma {:induction false} ContainsIff(known: Known, chain: Chain)
    ensures Contains(known, chain) <==> exists f, at: seq<nat> :: f in known && ReadsOff(chain, f, at)
  {
    hide ReadsOff, Picks, InOrder, Included;
    forall f | f in known
      ensures Included(Key(chain), Key(f)) <==> exists at: seq<nat> :: ReadsOff(chain, f, at)
    {
      KeyIncluded(chain, f);
    }
  }

  lemma {:induction false} KeyIncluded(chain: Chain, f: Chain)
    ensures Included(Key(chain), Key(f)) <==> exists at: seq<nat> :: ReadsOff(chain, f, at)
  {
    hide ReadsOff, Picks, InOrder, Included;
    IncludedIff(Key(chain), Key(f));
    forall at: seq<nat>
      ensures Picks(Key(chain).instructionFaults, Key(f).instructionFaults, at) <==> ReadsOff(chain, f, at)
    {
      PicksAre(chain, f, at);
    }
    assert Picks<RegisterId>([], [], []) by { NothingPicked<RegisterId>(); }
  }

  lemma {:induction false} NothingPicked<T>()
    ensures Picks<T>([], [], [])
  {
  }


  lemma {:induction false} InOrderSelf<T>(a: seq<T>)
    ensures InOrder(a, a)
  {
    if a != [] {
      InOrderSelf(a[..|a| - 1]);
    }
  }

  lemma {:induction false} ContainingIsSensible(redundant: Test)
    requires forall known: Known, chain: Chain :: redundant(known, chain) <==> Contains(known, chain)
    ensures SensibleTest(redundant)
  {
    hide Key;
    forall known: Known, chain: Chain | chain in known
      ensures Contains(known, chain)
    {
      SelfIncluded(chain);
    }
  }

  /** The list an entry is tested against is one the index may be built from, and the index then decides
      whether a chain contains a known one. */
  lemma {:induction false} IndexDecides(t: Setting, plan: seq<nat>, chain: Chain)
    requires t.Sensible() && t.Fits(plan) && plan != []
    ensures var list := Keys(t.KnownFor(plan));
      && BySize(list) && (forall f | f in list :: f.Size() > 0)
      && (Contains(t.KnownFor(plan), chain) <==> exists f | f in list :: Included(Key(chain), f))
  {
    hide SensibleTest, Included;
    KnownAscends(t, plan);
    var known := t.KnownFor(plan);
    forall f | f in known
      ensures Key(f) in Keys(known)
    {
      var i :| 0 <= i < |known| && known[i] == f;
      assert Keys(known)[i] == Key(f);
    }
  }

  // ---- Pruning loses nothing --------------------------------------------------------------------

  /** The same campaign with fewer chains redundant finds a chain, or one of its beginnings is redundant. */
  lemma {:induction false} FoundOrPruned(c: Campaign, d: Campaign, level: nat, s: State, code: seq<Byte>, budget: nat,
                                         chain: Chain, found: Chain)
      returns (k: nat)
    requires c.Valid() && level < |c.plan| && d == c.(redundant := d.redundant)
    requires found in Search(c, level, s, code, budget, chain)
    ensures k <= |found| && (d.redundant(found[..k]) || found in Search(d, level, s, code, budget, chain))
    ensures chain <= found
    decreases |c.plan| - level, 1
  {
    hide Search, Walk, Iterations, FaultedPermanently, FaultedStep, Hits, Trial;
    var i, iteration := Origin(c, level, s, code, budget, chain, found);
    var sites := Sites(c, s, code, budget);
    var site, p := sites[i], Walk(c, s, code, budget, sites, i);
    WalkSame(c, d, s, code, budget, sites, i);
    k := TrialOrPruned(c, d, level, p.state, code, p.remaining, chain, site, iteration, found);
    SameButTest(c, d, level, p.state.cpu.time, code, chain, site);
    if !d.redundant(found[..k]) {
      TrialInTrials(d, level, p.state, code, p.remaining, chain, site,
                    Iterations(d, level, p.state.cpu.time, code, site), iteration, found);
      IntoSearch(d, level, s, code, budget, chain, i, found);
    }
  }

  lemma {:induction false} SameButTest(c: Campaign, d: Campaign, level: nat, time: nat, code: seq<Byte>, chain: Chain,
                                       site: Site)
    requires c.Valid() && level < |c.plan| && d == c.(redundant := d.redundant) && InFlash(c.m, code, site)
    requires ValidChain(c, chain)
    ensures d.Valid() && c.Active(level) == d.Active(level) && ValidChain(d, chain)
    ensures Iterations(c, level, time, code, site) == Iterations(d, level, time, code, site)
    ensures FaultedPermanently(c, chain, site.address) == FaultedPermanently(d, chain, site.address)
  {
  }

  lemma {:induction false} TrialOrPruned(c: Campaign, d: Campaign, level: nat, s: State, code: seq<Byte>,
                                         remaining: nat, chain: Chain, site: Site, iteration: nat, found: Chain)
    returns (k: nat)
    requires c.Valid() && level < |c.plan| && d == c.(redundant := d.redundant)
    requires InFlash(c.m, code, site) && site.size in {2, 4} && ValidChain(c, chain)
    requires found in Trial(c, level, s, code, remaining, chain, site, iteration)
    ensures d.Valid() && k <= |found| && chain <= found
    ensures d.redundant(found[..k]) || found in Trial(d, level, s, code, remaining, chain, site, iteration)
    decreases |c.plan| - level, 0
  {
    hide Search, Run, Iterations, FaultedPermanently;
    SameButTest(c, d, level, s.cpu.time, code, chain, site);
    var f := Applied(c.Active(level), Blank(c, level, s.cpu.time, code, site, iteration));
    var o := FaultedStep(c, s, code, f);
    k := |chain| + 1;
    if !Hits(c, o, code, remaining) {
      var deeper := FoundOrPruned(c, d, level + 1, o.state, code, remaining - 1, chain + [f], found);
      assert found[..k] == chain + [f];
      if !d.redundant(found[..k]) {
        k := deeper;
      }
    } else {
      assert found == chain + [f] && found[..k] == found;
    }
  }

  lemma {:induction false} FullOrPruned(c: Campaign, d: Campaign, level: nat, s: State, code: seq<Byte>, budget: nat,
                                        chain: Chain, from: nat, found: Chain)
    returns (k: nat)
    requires c.Valid() && level < |c.plan| && d == c.(redundant := d.redundant)
    requires found in FullSearch(c, level, s, code, budget, chain, from)
    ensures d.Valid() && k <= |found| && chain <= found
    ensures d.redundant(found[..k]) || found in FullSearch(d, level, s, code, budget, chain, from)
    decreases |c.plan| - level
  {
    hide Search, FullSearch, Run;
    if c.Active(level).permanent {
      var index, iteration, f := PermanentOrigin(c, level, s, code, budget, chain, from, found);
      var patched := Patched(c.m, code, f.address, f.manipulated);
      k := |chain| + 1;
      var deeper := k;
      if level + 1 < |c.plan| {
        deeper := FullOrPruned(c, d, level + 1, s, patched, budget, chain + [f], NextFrom(c, level, index), found);
      }
      assert found[..k] == chain + [f];
      if !d.redundant(chain + [f]) {
        k := deeper;
        InjectsUnlessRedundant(c, d, level, s, code, chain, index, iteration, f);
        if !d.redundant(found[..k]) {
          IntoFullSearch(d, level, s, code, budget, chain, from, index, iteration, f, found);
        }
      }
    } else {
      TransientFull(c, level, s, code, budget, chain, from);
      k := FoundOrPruned(c, d, level, s, code, budget, chain, found);
      TransientFull(d, level, s, code, budget, chain, from);
    }
  }

  lemma {:induction false} InjectsUnlessRedundant(c: Campaign, d: Campaign, level: nat, s: State, code: seq<Byte>,
                                                  chain: Chain, index: nat, iteration: nat, f: Fault)
    requires d == c.(redundant := d.redundant) && Injects(c, level, s, code, chain, index, iteration, f)
    requires !d.redundant(chain + [f])
    ensures Injects(d, level, s, code, chain, index, iteration, f)
  {
  }

  lemma {:induction false} KeyPrefix(chain: Chain, k: nat)
    requires k <= |chain|
    ensures Key(chain).instructionFaults[..k] == Key(chain[..k]).instructionFaults
    ensures Key(chain).registerFaults == Key(chain[..k]).registerFaults == []
  {
  }

  lemma {:induction false} ContainsMore(known: Known, chain: Chain, k: nat)
    requires k <= |chain| && Contains(known, chain[..k])
    ensures Contains(known, chain)
  {
    var f :| f in known && Included(Key(chain[..k]), Key(f));
    KeyPrefix(chain, k);
    var a, b := Key(chain).instructionFaults, Key(f).instructionFaults;
    assert b[..|b|] == b;
    InOrderMore(a, b, k);
  }

  /** Every chain that an unpruned search of the entry finds contains one that is remembered. */
  lemma {:induction false} PruningLosesNothing(t: Setting, plan: seq<nat>, found: Chain)
    requires forall known: Known, chain: Chain :: t.redundant(known, chain) <==> Contains(known, chain)
    requires (forall list: Known, x: Chain :: x in t.tidy(list) <==> x in list) && t.Fits(plan) && plan != []
    requires found in FullSearch(t.c.(plan := plan, redundant := _ => false), 0, t.s, t.code, t.budget, [], 0)
    ensures t.Sensible() && Contains(t.Memo(plan), found)
  {
    hide FullSearch, SensibleTest, Included, Key;
    ContainingIsSensible(t.redundant);
    var c := t.c.(plan := plan, redundant := _ => false);
    var known := t.KnownFor(plan);
    var k := FullOrPruned(c, t.Entry(plan, known), 0, t.s, t.code, t.budget, [], 0, found);
    if Contains(known, found[..k]) {
      ContainsMore(known, found, k);
      var f :| f in known && Included(Key(found), Key(f));
      assert f in t.Memo(plan);
    } else {
      assert found in t.Memo(plan);
      SelfIncluded(found);
    }
  }

  lemma {:induction false} SelfIncluded(found: Chain)
    ensures Included(Key(found), Key(found))
  {
    InOrderSelf(Key(found).instructionFaults);
    InOrderSelf(Key(found).registerFaults);
  }

  // ---- The loop over the plan -------------------------------------------------------------------

  lemma {:induction false} AllFit(t: Setting, models: seq<InjectionPlan.Entry>, limit: nat, plan: seq<seq<nat>>)
    requires forall x | x in plan :: InjectionPlan.Planned(models, limit, x)
    requires t.Describes(models)
    ensures forall x | x in plan :: x != [] && t.Fits(x)
  {
    forall x | x in plan ensures x != [] && t.Fits(x) {
      InjectionPlan.PermanentFirst(models, limit, x);
    }
  }

  /** The entries before the i-th one are remembered. */
  ghost predicate Done(t: Setting, plan: seq<seq<nat>>, i: nat, memorized: map<seq<nat>, Known>)
    requires i <= |plan|
  {
    memorized.Keys == (set x | x in plan[..i]) &&
    forall x | x in memorized :: x != [] && t.Fits(x) && memorized[x] == t.Memo(x)
  }

  lemma {:induction false} DoneMore(t: Setting, plan: seq<seq<nat>>, i: nat, memorized: map<seq<nat>, Known>,
                                    memo: Known)
    requires i < |plan| && Done(t, plan, i, memorized) && plan[i] != [] && t.Fits(plan[i]) && memo == t.Memo(plan[i])
    ensures Done(t, plan, i + 1, memorized[plan[i] := memo])
  {
    assert plan[..i + 1] == plan[..i] + [plan[i]];
  }

  lemma {:induction false} PartsDone(t: Setting, models: seq<InjectionPlan.Entry>, limit: nat, plan: seq<seq<nat>>,
                                     i: nat, memorized: map<seq<nat>, Known>)
    requires InjectionPlan.Ordered(plan) && forall x :: x in plan <==> InjectionPlan.Planned(models, limit, x)
    requires i < |plan| && Done(t, plan, i, memorized)
    ensures var entry := plan[i];
      |entry| > 1 ==> [entry[|entry| - 1]] in memorized && entry[..|entry| - 1] in memorized
  {
    hide InjectionPlan.Ordered, InjectionPlan.Planned;
    var entry := plan[i];
    if |entry| > 1 {
      var j, k := InjectionPlan.KnownBefore(models, limit, plan, i);
      assert plan[..i][j] == entry[..|entry| - 1] && plan[..i][k] == [entry[|entry| - 1]];
    }
  }

  /** What is remembered for the last model alone and for the entry without it. */
  method Remembered(t: Setting, plan: seq<seq<nat>>, i: nat, memorized: map<seq<nat>, Known>) returns (known: Known)
    requires i < |plan| && Done(t, plan, i, memorized) && t.Fits(plan[i]) && plan[i] != []
    requires var entry := plan[i];
      |entry| > 1 ==> [entry[|entry| - 1]] in memorized && entry[..|entry| - 1] in memorized
    ensures known == t.KnownFor(plan[i])
  {
    known := [];
    var entry := plan[i];
    if |entry| > 1 {
      var last, preceding := [entry[|entry| - 1]], entry[..|entry| - 1];
      if last in memorized {
        known := known + memorized[last];
      }
      if preceding in memorized {
        known := known + memorized[preceding];
      }
    }
  }

  /** Simulates the entries of a plan in order, remembering what each found. */
  method SimulateAll(t: Setting, models: seq<InjectionPlan.Entry>, limit: nat, plan: seq<seq<nat>>,
                     find: (seq<nat>, Known) -> seq<Chain>)
      returns (memorized: map<seq<nat>, Known>)
    requires InjectionPlan.Ordered(plan) && forall x :: x in plan <==> InjectionPlan.Planned(models, limit, x)
    requires t.Describes(models)
    requires forall x, known: Known | x in plan && t.Fits(x) && x != [] :: find(x, known) == t.Found(x, known)
    ensures memorized.Keys == set x | x in plan
    ensures forall x | x in plan :: x != [] && t.Fits(x) && memorized[x] == t.Memo(x)
  {
    hide Done, InjectionPlan.Ordered, InjectionPlan.Planned;
    AllFit(t, models, limit, plan);
    memorized := map[];
    var i := 0;
    NothingDone(t, plan);
    while i < |plan|
      invariant 0 <= i <= |plan| && Done(t, plan, i, memorized)
    {
      var entry := plan[i];
      assert entry in plan;
      PartsDone(t, models, limit, plan, i, memorized);
      var known := Remembered(t, plan, i, memorized);
      var added := find(entry, known);
      DoneMore(t, plan, i, memorized, known + added);
      memorized := memorized[entry := known + added];
      i := i + 1;
    }
    AllDone(t, plan, memorized);
  }

  lemma {:induction false} NothingDone(t: Setting, plan: seq<seq<nat>>)
    ensures Done(t, plan, 0, map[])
  {
  }

  lemma {:induction false} AllDone(t: Setting, plan: seq<seq<nat>>, memorized: map<seq<nat>, Known>)
    requires Done(t, plan, |plan|, memorized)
    ensures memorized.Keys == set x | x in plan
    ensures forall x | x in plan :: x != [] && t.Fits(x) && memorized[x] == t.Memo(x)
  {
    assert plan[..|plan|] == plan;
    forall x | x in plan ensures x != [] && t.Fits(x) && memorized[x] == t.Memo(x) {
      assert x in memorized.Keys;
    }
  }
}
