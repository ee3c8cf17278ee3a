/** Worker threads sharing one index counter.  Drawing an index and merging the results are the steps taken
    under the lock; what a thread finds is a function of the indices it drew. */
module Threads {
  import opened Processor
  import opened Faults
  import opened SearchSpec
  import opened PermanentSearch
  import BruteForce

  datatype Phase = Running | Leaving | Merged

  /** `draws` are the indices below the number of sites that this thread was handed. */
  datatype Thread = Thread(phase: Phase, draws: seq<nat>)

  /** The counter is 32 bits wide. */
  datatype Pool<T> = Pool(progress: Word, threads: seq<Thread>, found: seq<T>)

  datatype Step = Draw(thread: nat) | Merge(thread: nat)

  predicate Enabled<T>(p: Pool<T>, step: Step) {
    step.thread < |p.threads| && p.threads[step.thread].phase == (if step.Draw? then Running else Leaving)
  }

  /** What a thread with these indices pushes. */
  type Worker<T> = seq<nat> -> seq<T>

  function Next<T>(p: Pool<T>, sites: nat, worker: Worker<T>, step: Step): Pool<T>
    requires Enabled(p, step)
  {
    var t := p.threads[step.thread];
    if step.Draw? then
      var index := p.progress;
      var t1 := if index >= sites then t.(phase := Leaving) else t.(draws := t.draws + [index]);
      p.(progress := (p.progress + 1) % WORD_LIMIT, threads := p.threads[step.thread := t1])
    else
      p.(threads := p.threads[step.thread := t.(phase := Merged)], found := p.found + worker(t.draws))
  }

  function Start<T>(workers: nat): Pool<T> {
    Pool(0, seq(workers, _ => Thread(Running, [])), [])
  }

  /** The pools reachable by some interleaving. */
  ghost predicate Reaches<T>(p: Pool<T>, sites: nat, worker: Worker<T>, steps: seq<Step>, q: Pool<T>)
    decreases |steps|
  {
    if steps == [] then p == q
    else Enabled(p, steps[0]) && Reaches(Next(p, sites, worker, steps[0]), sites, worker, steps[1..], q)
  }

  // ---- The invariant ----------------------------------------------------------------------------

  /** The indices that count for a thread: all it drew, or none before it has merged. */
  function Share(t: Thread, mergedOnly: bool): multiset<nat> {
    if mergedOnly && t.phase != Merged then multiset{} else multiset(t.draws)
  }

  function Drawn(threads: seq<Thread>, mergedOnly: bool): multiset<nat>
    decreases |threads|
  {
    if threads == [] then multiset{} else Drawn(threads[1..], mergedOnly) + Share(threads[0], mergedOnly)
  }

  function Gone(threads: seq<Thread>): nat
    decreases |threads|
  {
    if threads == [] then 0 else Gone(threads[1..]) + if threads[0].phase == Running then 0 else 1
  }

  function Min(x: nat, y: nat): nat { if x < y then x else y }

  ghost predicate Ascending(draws: seq<nat>, below: nat) {
    && (forall i | 0 <= i < |draws| :: draws[i] < below)
    && (forall i, j | 0 <= i < j < |draws| :: draws[i] < draws[j])
  }

  /** `handled` are the indices of the merged threads in the order in which they merged. */
  ghost predicate Invariant<T>(p: Pool<T>, sites: nat, worker: Worker<T>, handled: seq<nat>) {
    && p.progress <= sites + Gone(p.threads)
    && (Gone(p.threads) > 0 ==> p.progress >= sites)
    && Drawn(p.threads, false) == multiset(UpTo(Min(p.progress, sites)))
    && Drawn(p.threads, true) == multiset(handled)
    && p.found == worker(handled)
    && forall w | 0 <= w < |p.threads| :: Ascending(p.threads[w].draws, Min(p.progress, sites))
  }

  /** The results of two batches of indices are the results of one batch after the other. */
  ghost predicate Additive<T>(worker: Worker<T>) {
    worker([]) == [] && forall a, b :: worker(a + b) == worker(a) + worker(b)
  }

  lemma {:induction false} AddBoth<T>(a: multiset<T>, b: multiset<T>, x: multiset<T>, y: multiset<T>, z: multiset<T>)
    requires a + x == b + y
    ensures (a + z) + x == (b + z) + y
  {
    assert forall k :: ((a + z) + x)[k] == (a + x)[k] + z[k] == ((b + z) + y)[k];
  }

  lemma {:induction false} Cancel<T>(a: multiset<T>, b: multiset<T>, x: multiset<T>)
    requires a + x == b + x
    ensures a == b
  {
    forall k
      ensures a[k] == b[k]
    {
      assert (a + x)[k] == a[k] + x[k] && (b + x)[k] == b[k] + x[k];
    }
  }

  lemma {:induction false} DrawnUpdate(threads: seq<Thread>, w: nat, t: Thread, mergedOnly: bool)
    requires w < |threads|
    ensures Drawn(threads[w := t], mergedOnly) + Share(threads[w], mergedOnly) ==
      Drawn(threads, mergedOnly) + Share(t, mergedOnly)
    decreases |threads|
  {
    hide Share;
    if w == 0 {
      assert threads[w := t][1..] == threads[1..];
    } else {
      assert threads[w := t][1..] == threads[1..][w - 1 := t];
      DrawnUpdate(threads[1..], w - 1, t, mergedOnly);
      AddBoth(Drawn(threads[1..][w - 1 := t], mergedOnly), Drawn(threads[1..], mergedOnly),
              Share(threads[w], mergedOnly), Share(t, mergedOnly), Share(threads[0], mergedOnly));
    }
  }

  lemma {:induction false} GoneUpdate(threads: seq<Thread>, w: nat, t: Thread)
    requires w < |threads|
    ensures Gone(threads[w := t]) + (if threads[w].phase == Running then 0 else 1)
      == Gone(threads) + if t.phase == Running then 0 else 1
    ensures Gone(threads) <= |threads| && (threads[w].phase == Running ==> Gone(threads) < |threads|)
    decreases |threads|
  {
    if w == 0 {
      assert threads[w := t][1..] == threads[1..];
      GoneBound(threads[1..]);
    } else {
      assert threads[w := t][1..] == threads[1..][w - 1 := t];
      GoneUpdate(threads[1..], w - 1, t);
    }
  }

  lemma {:induction false} GoneBound(threads: seq<Thread>)
    ensures Gone(threads) <= |threads|
    decreases |threads|
  {
    if threads != [] {
      GoneBound(threads[1..]);
    }
  }

  lemma {:induction false} UpToNext(n: nat)
    ensures multiset(UpTo(n + 1)) == multiset(UpTo(n)) + multiset{n}
  {
    assert UpTo(n + 1) == UpTo(n) + [n];
  }

  /** What drawing adds to the indices handed out. */
  lemma {:induction false} DrawnMore<T>(p: Pool<T>, sites: nat, worker: Worker<T>, w: nat)
    requires Enabled(p, Draw(w))
    ensures var q := Next(p, sites, worker, Draw(w));
      && |q.threads| == |p.threads| && Drawn(q.threads, true) == Drawn(p.threads, true)
      && Drawn(q.threads, false) ==
         Drawn(p.threads, false) + if p.progress < sites then multiset{p.progress} else multiset{}
  {
    hide Drawn;
    var t := p.threads[w];
    var q := Next(p, sites, worker, Draw(w));
    var t1 := q.threads[w];
    DrawnUpdate(p.threads, w, t1, false);
    DrawnUpdate(p.threads, w, t1, true);
    Cancel(Drawn(q.threads, true), Drawn(p.threads, true), multiset{});
    if p.progress < sites {
      assert multiset(t1.draws) == multiset{p.progress} + multiset(t.draws);
      assert Drawn(p.threads, false) + (multiset{p.progress} + multiset(t.draws)) ==
        (Drawn(p.threads, false) + multiset{p.progress}) + multiset(t.draws);
      Cancel(Drawn(q.threads, false), Drawn(p.threads, false) + multiset{p.progress}, multiset(t.draws));
    } else {
      Cancel(Drawn(q.threads, false), Drawn(p.threads, false), multiset(t.draws));
    }
  }

  lemma {:induction false} DrawKeeps<T>(p: Pool<T>, sites: nat, worker: Worker<T>, handled: seq<nat>, w: nat)
    requires Invariant(p, sites, worker, handled) && Enabled(p, Draw(w)) && sites + |p.threads| < WORD_LIMIT
    ensures Invariant(Next(p, sites, worker, Draw(w)), sites, worker, handled)
  {
    hide Drawn, Gone, UpTo, Ascending;
    var q := Next(p, sites, worker, Draw(w));
    GoneUpdate(p.threads, w, q.threads[w]);
    DrawnMore(p, sites, worker, w);
    if p.progress < sites {
      UpToNext(p.progress);
    }
    DrawAscends(p, sites, worker, w);
  }

  lemma {:induction false} DrawAscends<T>(p: Pool<T>, sites: nat, worker: Worker<T>, w: nat)
    requires Enabled(p, Draw(w)) && p.progress + 1 < WORD_LIMIT
    requires forall v | 0 <= v < |p.threads| :: Ascending(p.threads[v].draws, Min(p.progress, sites))
    ensures var q := Next(p, sites, worker, Draw(w));
      forall v | 0 <= v < |q.threads| :: Ascending(q.threads[v].draws, Min(q.progress, sites))
  {
  }

  lemma {:induction false} MergeKeeps<T>(p: Pool<T>, sites: nat, worker: Worker<T>, handled: seq<nat>, w: nat)
    requires Additive(worker) && Invariant(p, sites, worker, handled) && Enabled(p, Merge(w))
    ensures Invariant(Next(p, sites, worker, Merge(w)), sites, worker, handled + p.threads[w].draws)
  {
    hide Drawn, Gone, UpTo;
    var t := p.threads[w];
    var q := Next(p, sites, worker, Merge(w));
    GoneUpdate(p.threads, w, t.(phase := Merged));
    DrawnUpdate(p.threads, w, t.(phase := Merged), false);
    DrawnUpdate(p.threads, w, t.(phase := Merged), true);
    assert multiset(handled + t.draws) == multiset(handled) + multiset(t.draws);
    Cancel(Drawn(q.threads, false), Drawn(p.threads, false), multiset(t.draws));
    assert Drawn(q.threads, true) == Drawn(p.threads, true) + multiset(t.draws);
  }

  lemma {:induction false} RunKeeps<T>(p: Pool<T>, sites: nat, worker: Worker<T>, steps: seq<Step>, q: Pool<T>,
                                       handled: seq<nat>)
      returns (handled1: seq<nat>)
    requires Additive(worker) && Invariant(p, sites, worker, handled) && sites + |p.threads| < WORD_LIMIT
    requires Reaches(p, sites, worker, steps, q)
    ensures Invariant(q, sites, worker, handled1) && |q.threads| == |p.threads|
    decreases |steps|
  {
    hide Invariant, Additive;
    if steps == [] {
      handled1 := handled;
    } else {
      var step := steps[0];
      var h := handled;
      if step.Draw? {
        DrawKeeps(p, sites, worker, handled, step.thread);
      } else {
        MergeKeeps(p, sites, worker, handled, step.thread);
        h := handled + p.threads[step.thread].draws;
      }
      handled1 := RunKeeps(Next(p, sites, worker, step), sites, worker, steps[1..], q, h);
    }
  }

  lemma {:induction false} StartInvariant<T>(workers: nat, sites: nat, worker: Worker<T>)
    requires Additive(worker)
    ensures Invariant(Start<T>(workers), sites, worker, [])
  {
    StartDrawn<T>(workers);
    assert UpTo(0) == [];
  }

  lemma {:induction false} StartDrawn<T>(workers: nat)
    ensures Drawn(Start<T>(workers).threads, false) == Drawn(Start<T>(workers).threads, true) == multiset{}
    ensures Gone(Start<T>(workers).threads) == 0
    decreases workers
  {
    if workers > 0 {
      assert Start<T>(workers).threads[1..] == Start<T>(workers - 1).threads;
      StartDrawn<T>(workers - 1);
    }
  }

  ghost predicate AllMerged<T>(p: Pool<T>) {
    forall w | 0 <= w < |p.threads| :: p.threads[w].phase == Merged
  }

  lemma {:induction false} MergedDrawn(threads: seq<Thread>)
    requires forall w | 0 <= w < |threads| :: threads[w].phase == Merged
    ensures Drawn(threads, false) == Drawn(threads, true) && Gone(threads) == |threads|
    decreases |threads|
  {
    if threads != [] {
      MergedDrawn(threads[1..]);
    }
  }

  /** In every reachable pool no index has been handed out twice, none has been skipped, and each thread
      received its share in ascending order. */
  lemma {:induction false} IndicesHandedOutOnce<T>(workers: nat, sites: nat, worker: Worker<T>, steps: seq<Step>,
                                                   q: Pool<T>)
    requires Additive(worker) && sites + workers < WORD_LIMIT
    requires Reaches(Start(workers), sites, worker, steps, q)
    ensures Drawn(q.threads, false) == multiset(UpTo(Min(q.progress, sites)))
    ensures forall w | 0 <= w < |q.threads| :: Ascending(q.threads[w].draws, sites)
  {
    hide Additive, Drawn, Reaches;
    StartInvariant(workers, sites, worker);
    var handled := RunKeeps(Start(workers), sites, worker, steps, q, []);
  }

  /** When all threads have merged, every index was handled exactly once, in some order. */
  lemma {:induction false} EveryIndexHandledOnce<T>(workers: nat, sites: nat, worker: Worker<T>, steps: seq<Step>,
                                                    q: Pool<T>)
      returns (handled: seq<nat>)
    requires Additive(worker) && workers > 0 && sites + workers < WORD_LIMIT
    requires Reaches(Start(workers), sites, worker, steps, q) && AllMerged(q)
    ensures multiset(handled) == multiset(UpTo(sites)) && q.found == worker(handled)
  {
    hide Additive, Reaches, Drawn, Gone;
    StartInvariant(workers, sites, worker);
    handled := RunKeeps(Start(workers), sites, worker, steps, q, []);
    MergedDrawn(q.threads);
  }

  // ---- The threads together compute the search --------------------------------------------------

  function Gather<T>(visit: nat -> seq<T>, tickets: seq<nat>): seq<T>
    decreases |tickets|
  {
    if tickets == [] then [] else Gather(visit, tickets[..|tickets| - 1]) + visit(tickets[|tickets| - 1])
  }

  lemma {:induction false} GatherAppend<T>(visit: nat -> seq<T>, a: seq<nat>, b: seq<nat>)
    ensures Gather(visit, a + b) == Gather(visit, a) + Gather(visit, b)
    decreases |b|
  {
    if b == [] {
      assert a + b == a;
    } else {
      var n := |b| - 1;
      assert (a + b)[..|a + b| - 1] == a + b[..n] && (a + b)[|a + b| - 1] == b[n];
      GatherAppend(visit, a, b[..n]);
    }
  }

  /** The multiset of results does not depend on the order of the indices. */
  lemma {:induction false} GatherPermuted<T>(visit: nat -> seq<T>, a: seq<nat>, b: seq<nat>)
    requires multiset(a) == multiset(b)
    ensures multiset(Gather(visit, a)) == multiset(Gather(visit, b))
    decreases |a|
  {
    if a == [] {
      assert |multiset(b)| == 0;
    } else {
      var n := |a| - 1;
      assert a == a[..n] + [a[n]];
      assert a[n] in multiset(b);
      var i :| 0 <= i < |b| && b[i] == a[n];
      var front, back := b[..i], b[i + 1..];
      assert b == front + [b[i]] + back;
      assert multiset(front + [b[i]] + back) == multiset(front + back) + multiset{a[n]};
      Cancel(multiset(a[..n]), multiset(front + back), multiset{a[n]});
      GatherPermuted(visit, a[..n], front + back);
      GatherAppend(visit, front + [b[i]], back);
      GatherAppend(visit, front, [b[i]]);
      GatherAppend(visit, front, back);
      assert Gather(visit, [b[i]]) == visit(b[i]) by {
        assert [b[i]][..0] == [];
      }
      assert Gather(visit, a) == Gather(visit, a[..n]) + visit(a[n]);
    }
  }

  ghost function VisitOf(c: Campaign, s: State, code: seq<Byte>, budget: nat): nat -> seq<Chain>
    requires c.Valid() && |c.plan| > 0
  {
    var sites := Sites(c, s, code, budget);
    (i: nat) => if i < |sites| then Visit(c, 0, Walk(c, s, code, budget, sites, i), code, [], sites[i]) else []
  }

  lemma {:induction false} VisitsGather(c: Campaign, s: State, code: seq<Byte>, budget: nat, tickets: seq<nat>)
    requires c.Valid() && |c.plan| > 0
    requires forall i | 0 <= i < |tickets| :: tickets[i] < |Sites(c, s, code, budget)|
    ensures Visits(c, 0, s, code, budget, [], tickets) == Gather(VisitOf(c, s, code, budget), tickets)
    decreases |tickets|
  {
    hide Visit, Walk, Sites;
    if tickets != [] {
      VisitsGather(c, s, code, budget, tickets[..|tickets| - 1]);
    }
  }

  /** However many threads run and however their steps interleave, the merged results are, up to order,
      the results of the sequential search. */
  lemma {:induction false} ThreadsComputeTheSearch(c: Campaign, s: State, code: seq<Byte>, budget: nat, workers: nat,
                                                   steps: seq<Step>, q: Pool<Chain>)
    requires c.Valid() && |c.plan| > 0 && workers > 0
    requires var n := |Sites(c, s, code, budget)|;
      && n + workers < WORD_LIMIT
      && Reaches(Start(workers), n, t => Gather(VisitOf(c, s, code, budget), t), steps, q)
    requires AllMerged(q)
    ensures multiset(q.found) == multiset(Search(c, 0, s, code, budget, []))
  {
    hide Reaches, AllMerged, VisitOf, Sites, Visits, Gather;
    var n := |Sites(c, s, code, budget)|;
    var visit := VisitOf(c, s, code, budget);
    var worker := t => Gather(visit, t);
    GatherIsAdditive(visit, worker);
    var handled := EveryIndexHandledOnce(workers, n, worker, steps, q);
    GatherPermuted(visit, handled, UpTo(n));
    VisitsGather(c, s, code, budget, UpTo(n));
  }

  ghost function PermanentVisitOf(c: Campaign, s: State, code: seq<Byte>, budget: nat): nat -> seq<Chain>
    requires c.Valid() && |c.plan| > 0
  {
    (i: nat) => if i < |c.sites| then PermanentVisit(c, 0, s, code, budget, [], i) else []
  }

  lemma {:induction false} PermanentVisitsGather(c: Campaign, s: State, code: seq<Byte>, budget: nat, tickets: seq<nat>)
    requires c.Valid() && |c.plan| > 0
    requires forall i | 0 <= i < |tickets| :: tickets[i] < |c.sites|
    ensures PermanentVisits(c, 0, s, code, budget, [], tickets) == Gather(PermanentVisitOf(c, s, code, budget), tickets)
    decreases |tickets|
  {
    hide PermanentVisit;
    if tickets != [] {
      PermanentVisitsGather(c, s, code, budget, tickets[..|tickets| - 1]);
    }
  }

  /** The same when the first model is permanent and the threads share the static instructions. */
  lemma {:induction false} ThreadsComputeThePermanentSearch(c: Campaign, s: State, code: seq<Byte>, budget: nat,
                                                            workers: nat, steps: seq<Step>, q: Pool<Chain>)
    requires c.Valid() && |c.plan| > 0 && c.Active(0).permanent && workers > 0 && |c.sites| + workers < WORD_LIMIT
    requires Reaches(Start(workers), |c.sites|, t => Gather(PermanentVisitOf(c, s, code, budget), t), steps, q)
    requires AllMerged(q)
    ensures multiset(q.found) == multiset(FullSearch(c, 0, s, code, budget, [], 0))
  {
    hide Reaches, AllMerged, PermanentVisitOf, PermanentVisits, Gather;
    var n := |c.sites|;
    var visit := PermanentVisitOf(c, s, code, budget);
    var worker := t => Gather(visit, t);
    GatherIsAdditive(visit, worker);
    var handled := EveryIndexHandledOnce(workers, n, worker, steps, q);
    GatherPermuted(visit, handled, UpTo(n));
    PermanentVisitsGather(c, s, code, budget, UpTo(n));
    assert Range(0, n) == UpTo(n);
  }

  /** Whatever the interleaving, the merged results are the chains that brute force finds. */
  lemma {:induction false} ThreadsFindBruteForce(c: Campaign, s: State, code: seq<Byte>, budget: nat, workers: nat,
                                                 steps: seq<Step>, q: Pool<Chain>, found: Chain)
    requires c.Valid() && KeepsEven(c.m) && |c.plan| > 0 && !c.Active(0).permanent && workers > 0
    requires BruteForce.ExactAlong(c, s, code, budget, found)
    requires var n := |Sites(c, s, code, budget)|;
      && n + workers < WORD_LIMIT
      && Reaches(Start(workers), n, t => Gather(VisitOf(c, s, code, budget), t), steps, q)
    requires AllMerged(q)
    ensures found in q.found <==> BruteForce.BruteChain(c, 0, s, code, budget, [], found)
  {
    hide Reaches, AllMerged, VisitOf, Sites, Search, BruteForce.ExactAlong, BruteForce.BruteChain;
    ThreadsComputeTheSearch(c, s, code, budget, workers, steps, q);
    assert [] + found == found;
    BruteForce.SearchIsBruteForce(c, 0, s, code, budget, [], found);
    assert found in q.found <==> found in multiset(q.found);
    assert found in Search(c, 0, s, code, budget, []) <==> found in multiset(Search(c, 0, s, code, budget, []));
  }

  lemma {:induction false} GatherIsAdditive<T>(visit: nat -> seq<T>, worker: Worker<T>)
    requires forall t :: worker(t) == Gather(visit, t)
    ensures Additive(worker)
  {
    forall a, b
      ensures worker(a + b) == worker(a) + worker(b)
    {
      GatherAppend(visit, a, b);
    }
  }
}
