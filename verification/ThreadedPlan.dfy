/** What a plan remembers when every entry of it is searched by threads. */
module ThreadedPlan {
  import opened Processor
  import opened Faults
  import opened SearchSpec
  import opened PermanentSearch
  import opened KnownFaults
  import opened Threads

  ghost predicate SameElements(a: Known, b: Known) {
    forall x :: x in a <==> x in b
  }

  /** Any number of threads that share the indices of the first level, in any interleaving, all merged. */
  ghost predicate Pooled(c: Campaign, s: State, code: seq<Byte>, budget: nat, workers: nat, steps: seq<Step>,
                         q: Pool<Chain>)
    requires c.Valid() && |c.plan| > 0
  {
    && workers > 0 && AllMerged(q)
    && if c.Active(0).permanent then
         && |c.sites| + workers < WORD_LIMIT
         && Reaches(Start(workers), |c.sites|, t => Gather(PermanentVisitOf(c, s, code, budget), t), steps, q)
       else
         var n := |Sites(c, s, code, budget)|;
         && n + workers < WORD_LIMIT
         && Reaches(Start(workers), n, t => Gather(VisitOf(c, s, code, budget), t), steps, q)
  }

  lemma {:induction false} PooledIsSearch(c: Campaign, s: State, code: seq<Byte>, budget: nat, workers: nat,
                                          steps: seq<Step>, q: Pool<Chain>)
    requires c.Valid() && |c.plan| > 0 && Pooled(c, s, code, budget, workers, steps, q)
    ensures SameElements(q.found, FullSearch(c, 0, s, code, budget, [], 0))
  {
    hide Reaches, AllMerged, VisitOf, PermanentVisitOf, Sites, Search, PermanentVisits, Gather;
    if c.Active(0).permanent {
      ThreadsComputeThePermanentSearch(c, s, code, budget, workers, steps, q);
    } else {
      ThreadsComputeTheSearch(c, s, code, budget, workers, steps, q);
    }
    SameMultiset(q.found, FullSearch(c, 0, s, code, budget, [], 0));
  }

  lemma {:induction false} SameMultiset(a: Known, b: Known)
    requires multiset(a) == multiset(b)
    ensures SameElements(a, b)
  {
    forall x
      ensures x in a <==> x in b
    {
      assert x in a <==> x in multiset(a);
      assert x in b <==> x in multiset(b);
    }
  }

  /** What an entry is tested against, taken from what is remembered. */
  function KnownIn(memorized: map<seq<nat>, Known>, x: seq<nat>): Known
    requires |x| > 1 ==> [x[|x| - 1]] in memorized && x[..|x| - 1] in memorized
  {
    if |x| <= 1 then [] else memorized[[x[|x| - 1]]] + memorized[x[..|x| - 1]]
  }

  /** Entry x remembers what it was tested against and, tidied, what its threads found. */
  ghost predicate Remembers(t: Setting, memorized: map<seq<nat>, Known>, x: seq<nat>) {
    && x in memorized && x != [] && t.Fits(x)
    && (|x| > 1 ==> [x[|x| - 1]] in memorized && x[..|x| - 1] in memorized)
    && var known := KnownIn(memorized, x);
       exists workers: nat, steps, q :: Pooled(t.Entry(x, known), t.s, t.code, t.budget, workers, steps, q) &&
         memorized[x] == known + t.tidy(q.found)
  }

  /** Tested against other lists of the same chains, an entry finds the same. */
  lemma {:induction false} SameTests(t: Setting, x: seq<nat>, known: Known, other: Known, found: Chain)
    requires t.Sensible() && t.Fits(x) && x != [] && SameElements(known, other)
    requires found in FullSearch(t.Entry(x, known), 0, t.s, t.code, t.budget, [], 0)
    ensures found in FullSearch(t.Entry(x, other), 0, t.s, t.code, t.budget, [], 0)
  {
    hide FullSearch;
    var c, d := t.Entry(x, known), t.Entry(x, other);
    assert x[..|x|] == x;
    FullIsFresh(c, 0, t.s, t.code, t.budget, [], 0, found);
    FullPrefixFinds(c, d, |x|, 0, t.s, t.code, t.budget, [], 0, found);
  }

  /** However the threads of each entry interleave, and in whatever order their results are tidied, the
      chains remembered are those of the sequential searches. */
  lemma {:induction false} ThreadsRememberTheSame(t: Setting, memorized: map<seq<nat>, Known>, x: seq<nat>)
    requires t.Sensible() && x in memorized && forall y | y in memorized :: Remembers(t, memorized, y)
    ensures x != [] && t.Fits(x) && SameElements(memorized[x], t.Memo(x))
    decreases |x|
  {
    hide FullSearch, Pooled;
    assert Remembers(t, memorized, x);
    var known := KnownIn(memorized, x);
    if |x| > 1 {
      ThreadsRememberTheSame(t, memorized, [x[|x| - 1]]);
      ThreadsRememberTheSame(t, memorized, x[..|x| - 1]);
    }
    assert SameElements(known, t.KnownFor(x));
    EntryRemembersTheSame(t, memorized, x, known);
  }

  lemma {:induction false} EntryRemembersTheSame(t: Setting, memorized: map<seq<nat>, Known>, x: seq<nat>, known: Known)
    requires t.Sensible() && Remembers(t, memorized, x) && known == KnownIn(memorized, x)
    requires SameElements(known, t.KnownFor(x))
    ensures SameElements(memorized[x], t.Memo(x))
  {
    hide FullSearch, Pooled;
    var workers: nat, steps, q :| Pooled(t.Entry(x, known), t.s, t.code, t.budget, workers, steps, q) &&
      memorized[x] == known + t.tidy(q.found);
    var c, d := t.Entry(x, known), t.Entry(x, t.KnownFor(x));
    PooledIsSearch(c, t.s, t.code, t.budget, workers, steps, q);
    forall f
      ensures f in memorized[x] <==> f in t.Memo(x)
    {
      if f in FullSearch(c, 0, t.s, t.code, t.budget, [], 0) {
        SameTests(t, x, known, t.KnownFor(x), f);
      }
      if f in FullSearch(d, 0, t.s, t.code, t.budget, [], 0) {
        SameTests(t, x, t.KnownFor(x), known, f);
      }
    }
  }

  /** With threads too, every chain that an unpruned search of an entry finds contains one remembered. */
  lemma {:induction false} ThreadsLoseNothing(t: Setting, memorized: map<seq<nat>, Known>, x: seq<nat>, found: Chain)
    requires forall known: Known, chain: Chain :: t.redundant(known, chain) <==> KnownFaults.Contains(known, chain)
    requires forall list: Known, y: Chain :: y in t.tidy(list) <==> y in list
    requires x in memorized && forall y | y in memorized :: Remembers(t, memorized, y)
    requires x != [] && t.Fits(x)
    requires found in FullSearch(t.c.(plan := x, redundant := _ => false), 0, t.s, t.code, t.budget, [], 0)
    ensures KnownFaults.Contains(memorized[x], found)
  {
    hide FullSearch, Remembers, KnownFaults.Contains, SensibleTest, SameElements;
    PruningLosesNothing(t, x, found);
    ThreadsRememberTheSame(t, memorized, x);
    ContainsSame(t.Memo(x), memorized[x], found);
  }

  lemma {:induction false} ContainsSame(a: Known, b: Known, found: Chain)
    requires SameElements(b, a) && KnownFaults.Contains(a, found)
    ensures KnownFaults.Contains(b, found)
  {
  }
}
