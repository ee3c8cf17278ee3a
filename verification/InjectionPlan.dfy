/** The plan of a campaign: which models are injected, in which order, and what is already known when. */
module InjectionPlan {
  import opened Choosing

  /** A model as the caller lists it: whether its faults are permanent, and how often it may be injected. */
  datatype Entry = Entry(permanent: bool, count: nat)

  predicate Sorted(s: seq<nat>) {
    forall i, j | 0 <= i < j < |s| :: s[i] <= s[j]
  }

  // ----- Multisets of lists -----

  lemma {:induction false} ConsMultiset(x: nat, a: seq<nat>)
    ensures multiset([x] + a) == multiset{x} + multiset(a)
  {
  }

  lemma {:induction false} ConsPart(x: nat, a: seq<nat>, b: seq<nat>)
    ensures multiset([x] + a) <= multiset([x] + b) <==> multiset(a) <= multiset(b)
    ensures multiset(a) <= multiset(b) ==> multiset(a) <= multiset([x] + b)
    ensures x !in a && multiset(a) <= multiset([x] + b) ==> multiset(a) <= multiset(b)
  {
    ConsMultiset(x, a);
    ConsMultiset(x, b);
    AddOne(x, multiset(a), multiset(b));
    assert x in a <==> x in multiset(a);
  }

  lemma {:induction false} AddOne(x: nat, p: multiset<nat>, q: multiset<nat>)
    ensures multiset{x} + p <= multiset{x} + q <==> p <= q
    ensures p <= q ==> p <= multiset{x} + q
    ensures x !in p && p <= multiset{x} + q ==> p <= q
    ensures multiset{x} + p == multiset{x} + q ==> p == q
  {
    assert forall y :: (multiset{x} + p)[y] == multiset{x}[y] + p[y];
    assert forall y :: (multiset{x} + q)[y] == multiset{x}[y] + q[y];
    assert forall y :: multiset{x}[y] == if y == x then 1 else 0;
    if multiset{x} + p <= multiset{x} + q {
      assert forall y :: (multiset{x} + p)[y] <= (multiset{x} + q)[y];
      assert forall y :: p[y] <= q[y];
    }
    if x !in p && p <= multiset{x} + q {
      assert forall y :: p[y] <= (multiset{x} + q)[y];
      assert forall y :: p[y] <= q[y];
    }
    if multiset{x} + p == multiset{x} + q {
      assert forall y :: (multiset{x} + p)[y] == (multiset{x} + q)[y];
      assert forall y :: p[y] == q[y];
    }
  }

  lemma {:induction false} PartHolds(a: seq<nat>, b: seq<nat>, x: nat)
    requires multiset(a) <= multiset(b) && x in a
    ensures x in b
  {
    assert x in multiset(a) && x in multiset(b);
  }

  lemma {:induction false} SortedCons(x: nat, t: seq<nat>)
    ensures Sorted([x] + t) <==> Sorted(t) && forall y | y in t :: x <= y
  {
    var s := [x] + t;
    if Sorted(s) {
      forall y | y in t ensures x <= y {
        var j :| 0 <= j < |t| && t[j] == y;
        assert s[0] <= s[j + 1];
      }
      forall i, j | 0 <= i < j < |t| ensures t[i] <= t[j] {
        assert s[i + 1] <= s[j + 1];
      }
    }
    if Sorted(t) && forall y | y in t :: x <= y {
      forall i, j | 0 <= i < j < |s| ensures s[i] <= s[j] {
        assert s[j] == t[j - 1] && t[j - 1] in t;
        assert i > 0 ==> s[i] == t[i - 1];
      }
    }
  }

  // ----- Selections of a sorted list -----

  lemma {:induction false} InPrefixed(x: nat, lists: seq<seq<nat>>, t: seq<nat>)
    ensures t in Prefixed(x, lists) <==> t != [] && t[0] == x && t[1..] in lists
  {
    var p := Prefixed(x, lists);
    if t in p {
      var i :| 0 <= i < |p| && p[i] == t;
      assert t[1..] == lists[i];
    }
    if t != [] && t[0] == x && t[1..] in lists {
      var i :| 0 <= i < |lists| && lists[i] == t[1..];
      assert p[i] == t;
    }
  }

  lemma {:induction false} SubsetsCons(x: nat, s: seq<nat>, k: nat, t: seq<nat>)
    requires k > 0
    ensures t in Subsets([x] + s, k) <==> (t != [] && t[0] == x && t[1..] in Subsets(s, k - 1)) || t in Subsets(s, k)
  {
    assert ([x] + s)[1..] == s;
    InPrefixed(x, Subsets(s, k - 1), t);
  }

  /** A selection from a sorted list is a sorted part of it, and every sorted part is one. */
  lemma {:induction false} SubsetsAre(s: seq<nat>, k: nat, t: seq<nat>)
    requires Sorted(s)
    ensures t in Subsets(s, k) <==> |t| == k && Sorted(t) && multiset(t) <= multiset(s)
    decreases |s|
  {
    hide Sorted, Subsets;
    if k == 0 {
      EmptyPart(s);
    } else if s == [] {
      NothingToPick(t);
      NoSubsets(k);
    } else {
      var x, rest := s[0], s[1..];
      assert s == [x] + rest;
      SortedCons(x, rest);
      SubsetsCons(x, rest, k, t);
      SubsetsAre(rest, k, t);
      if t != [] {
        assert t == [t[0]] + t[1..];
        SubsetsAre(rest, k - 1, t[1..]);
        SortedCons(t[0], t[1..]);
        HeadCase(x, rest, k, t);
      }
    }
  }

  lemma {:induction false} NoSubsets(k: nat)
    requires k > 0
    ensures Subsets<nat>([], k) == []
  {
  }

  lemma {:induction false} EmptyPart(s: seq<nat>)
    ensures Subsets(s, 0) == [[]] && Sorted([]) && multiset([]) <= multiset(s)
  {
  }

  lemma {:induction false} NothingToPick(t: seq<nat>)
    ensures t != [] ==> !(multiset(t) <= multiset([]))
  {
    if t != [] {
      assert t[0] in multiset(t);
    }
  }

  /** A sorted part that does not begin with the smallest element does without it. */
  lemma {:induction false} OtherHead(x: nat, rest: seq<nat>, t: seq<nat>)
    requires t != [] && (forall y | y in rest :: x <= y) && forall y | y in t[1..] :: t[0] <= y
    requires multiset(t) <= multiset([x] + rest) && t[0] != x
    ensures multiset(t) <= multiset(rest)
  {
    assert t == [t[0]] + t[1..];
    PartHolds(t, [x] + rest, t[0]);
    assert x !in t;
    ConsPart(x, t, rest);
  }

  /** A sorted part of x and what follows it starts with x, or lies in what follows. */
  lemma {:induction false} HeadCase(x: nat, rest: seq<nat>, k: nat, t: seq<nat>)
    requires t != [] && forall y | y in rest :: x <= y
    requires Sorted(t) <==> Sorted(t[1..]) && forall y | y in t[1..] :: t[0] <= y
    ensures Sorted(t) && multiset(t) <= multiset([x] + rest) && t[0] != x ==> multiset(t) <= multiset(rest)
    ensures t[0] == x ==> (multiset(t) <= multiset([x] + rest) <==> multiset(t[1..]) <= multiset(rest))
    ensures t[0] == x && multiset(t[1..]) <= multiset(rest) && Sorted(t[1..]) ==> Sorted(t)
    ensures multiset(t) <= multiset(rest) ==> multiset(t) <= multiset([x] + rest)
  {
    hide Sorted;
    assert t == [t[0]] + t[1..];
    ConsPart(x, t[1..], rest);
    ConsPart(x, t, rest);
    if Sorted(t) && multiset(t) <= multiset([x] + rest) && t[0] != x {
      OtherHead(x, rest, t);
    }
    if multiset(t[1..]) <= multiset(rest) {
      forall y | y in t[1..] ensures x <= y {
        PartHolds(t[1..], rest, y);
      }
    }
  }

  // ----- Arrangements -----

  /** All arrangements of a list, as stepping through its permutations from the sorted one visits them. */
  function Arrangements(s: seq<nat>): set<seq<nat>>
    decreases |s|
  {
    if s == [] then {[]}
    else set i: nat, p: seq<nat> | i < |s| && p in Arrangements(s[..i] + s[i + 1..]) :: [s[i]] + p
  }

  lemma {:induction false} WithoutMultiset(s: seq<nat>, i: nat)
    requires i < |s|
    ensures multiset(s) == multiset{s[i]} + multiset(s[..i] + s[i + 1..])
  {
    assert s == s[..i] + [s[i]] + s[i + 1..];
  }

  lemma {:induction false} Picked(s: seq<nat>, p: seq<nat>) returns (i: nat, q: seq<nat>)
    requires s != [] && p in Arrangements(s)
    ensures i < |s| && q in Arrangements(s[..i] + s[i + 1..]) && p == [s[i]] + q
  {
    i, q :| i < |s| && q in Arrangements(s[..i] + s[i + 1..]) && p == [s[i]] + q;
  }

  lemma {:induction false} Arranged(s: seq<nat>, i: nat, q: seq<nat>)
    requires i < |s| && q in Arrangements(s[..i] + s[i + 1..])
    ensures [s[i]] + q in Arrangements(s)
  {
  }

  lemma {:induction false} ArrangementsAre(s: seq<nat>, p: seq<nat>)
    ensures p in Arrangements(s) <==> multiset(p) == multiset(s)
    decreases |s|
  {
    hide Arrangements;
    if s == [] {
      NothingToPick(p);
      NothingArranged(p);
    } else {
      if p in Arrangements(s) {
        var i, q := Picked(s, p);
        ArrangementsAre(s[..i] + s[i + 1..], q);
        WithoutMultiset(s, i);
        ConsMultiset(s[i], q);
      }
      if multiset(p) == multiset(s) {
        var i := IsArrangement(s, p);
        ArrangementsAre(s[..i] + s[i + 1..], p[1..]);
        Arranged(s, i, p[1..]);
        assert p == [s[i]] + p[1..];
      }
    }
  }

  lemma {:induction false} NothingArranged(p: seq<nat>)
    ensures Arrangements([]) == {[]}
    ensures p != [] ==> multiset(p) != multiset([])
  {
    if p != [] {
      assert p[0] in multiset(p);
    }
  }

  lemma {:induction false} IsArrangement(s: seq<nat>, p: seq<nat>) returns (i: nat)
    requires s != [] && multiset(p) == multiset(s)
    ensures p != [] && i < |s| && s[i] == p[0] && multiset(p[1..]) == multiset(s[..i] + s[i + 1..])
  {
    assert s[0] in multiset(s);
    assert p == [p[0]] + p[1..];
    assert p[0] in multiset(p);
    i :| i < |s| && s[i] == p[0];
    WithoutMultiset(s, i);
    ConsMultiset(p[0], p[1..]);
    AddOne(p[0], multiset(p[1..]), multiset(s[..i] + s[i + 1..]));
  }

  // ----- What belongs in the plan -----

  /** The limit on simultaneous faults; zero is no limit. */
  predicate Within(limit: nat, n: nat) {
    limit == 0 || n <= limit
  }

  function Repeated(id: nat, count: nat): (r: seq<nat>)
    ensures |r| == count && forall i | 0 <= i < count :: r[i] == id
  {
    seq(count, _ => id)
  }

  /** The permanent or the other models among the first n, each as often as it may be injected. */
  function Ids(models: seq<Entry>, permanent: bool, n: nat): seq<nat>
    requires n <= |models|
  {
    if n == 0 then [] else Ids(models, permanent, n - 1) + IdsOf(models[n - 1], permanent, n - 1)
  }

  function IdsOf(e: Entry, permanent: bool, id: nat): seq<nat> {
    if e.permanent == permanent then Repeated(id, e.count) else []
  }

  lemma {:induction false} IdsSorted(models: seq<Entry>, permanent: bool, n: nat)
    requires n <= |models|
    ensures Sorted(Ids(models, permanent, n)) && forall x | x in Ids(models, permanent, n) :: x < n
  {
    if n > 0 {
      IdsSorted(models, permanent, n - 1);
      SortedAppend(Ids(models, permanent, n - 1), IdsOf(models[n - 1], permanent, n - 1), n - 1);
    }
  }

  lemma {:induction false} IdsOfKind(models: seq<Entry>, permanent: bool, n: nat)
    requires n <= |models|
    ensures forall x | x in Ids(models, permanent, n) :: x < |models| && models[x].permanent == permanent
  {
    if n > 0 {
      IdsOfKind(models, permanent, n - 1);
    }
  }

  /** An entry of the plan names its permanent models first. */
  lemma {:induction false} PermanentFirst(models: seq<Entry>, limit: nat, x: seq<nat>)
    requires Planned(models, limit, x)
    ensures forall i | 0 <= i < |x| :: x[i] < |models|
    ensures forall i, j | 0 <= i < j < |x| && models[x[j]].permanent :: models[x[i]].permanent
  {
    hide Permanent, Other, Sorted;
    var k: nat :| Splits(models, x, k);
    IdsOfKind(models, true, |models|);
    IdsOfKind(models, false, |models|);
    forall i | 0 <= i < |x|
      ensures if i < k then x[i] in Permanent(models) else x[i] in Other(models)
    {
      if i < k {
        assert x[..k][i] in multiset(x[..k]);
      } else {
        assert x[k..][i - k] in multiset(x[k..]);
      }
    }
    KindsAre(models);
  }

  lemma {:induction false} KindsAre(models: seq<Entry>)
    ensures Permanent(models) == Ids(models, true, |models|) && Other(models) == Ids(models, false, |models|)
  {
  }

  lemma {:induction false} SortedAppend(a: seq<nat>, b: seq<nat>, id: nat)
    requires Sorted(a) && (forall x | x in a :: x < id) && forall x | x in b :: x == id
    ensures Sorted(a + b)
  {
    var s := a + b;
    forall i, j | 0 <= i < j < |s| ensures s[i] <= s[j] {
      assert i < |a| ==> s[i] in a;
      assert i >= |a| ==> s[i] in b;
      assert j >= |a| ==> s[j] in b;
    }
  }

  function Permanent(models: seq<Entry>): seq<nat> {
    Ids(models, true, |models|)
  }

  function Other(models: seq<Entry>): seq<nat> {
    Ids(models, false, |models|)
  }

  /** A sorted part of the permanent models followed by an arrangement of a part of the others. */
  ghost predicate Planned(models: seq<Entry>, limit: nat, x: seq<nat>) {
    x != [] && Within(limit, |x|) && exists k: nat :: Splits(models, x, k)
  }

  predicate Splits(models: seq<Entry>, x: seq<nat>, k: nat) {
    k <= |x| && Sorted(x[..k]) && multiset(x[..k]) <= multiset(Permanent(models)) &&
      multiset(x[k..]) <= multiset(Other(models))
  }

  /** Smaller entries first, entries of one size in lexicographic order. */
  predicate Lower(a: seq<nat>, b: seq<nat>)
    requires |a| == |b|
  {
    a != [] && (a[0] < b[0] || (a[0] == b[0] && Lower(a[1..], b[1..])))
  }

  predicate Earlier(a: seq<nat>, b: seq<nat>) {
    |a| < |b| || (|a| == |b| && Lower(a, b))
  }

  predicate Ordered(list: seq<seq<nat>>) {
    forall i, j | 0 <= i < j < |list| :: Earlier(list[i], list[j])
  }

  lemma {:induction false} EarlierTrans(a: seq<nat>, b: seq<nat>, c: seq<nat>)
    requires Earlier(a, b) && Earlier(b, c)
    ensures Earlier(a, c)
  {
    if |a| == |b| == |c| {
      LowerTrans(a, b, c);
    }
  }

  lemma {:induction false} LowerTrans(a: seq<nat>, b: seq<nat>, c: seq<nat>)
    requires |a| == |b| == |c| && Lower(a, b) && Lower(b, c)
    ensures Lower(a, c)
  {
    if a[0] == b[0] == c[0] {
      LowerTrans(a[1..], b[1..], c[1..]);
    }
  }

  lemma {:induction false} EarlierTotal(a: seq<nat>, b: seq<nat>)
    ensures a == b || Earlier(a, b) || Earlier(b, a)
    ensures !(Earlier(a, b) && Earlier(b, a)) && !Earlier(a, a)
  {
    if |a| == |b| {
      LowerTotal(a, b);
    }
    LowerTotal(a, a);
  }

  lemma {:induction false} LowerTotal(a: seq<nat>, b: seq<nat>)
    requires |a| == |b|
    ensures a == b || Lower(a, b) || Lower(b, a)
    ensures !(Lower(a, b) && Lower(b, a)) && (a == b ==> !Lower(a, b))
  {
    if a != [] {
      LowerTotal(a[1..], b[1..]);
      assert a == [a[0]] + a[1..] && b == [b[0]] + b[1..];
    }
  }

  // ----- Computing the plan -----

  /** The models split by kind, each id as often as it may be injected. */
  method SplitModels(models: seq<Entry>) returns (permanent: seq<nat>, other: seq<nat>)
    ensures permanent == Permanent(models) && other == Other(models)
  {
    permanent, other := [], [];
    var i := 0;
    while i < |models|
      invariant i <= |models|
      invariant permanent == Ids(models, true, i) && other == Ids(models, false, i)
    {
      var j := 0;
      ghost var p, o := permanent, other;
      while j < models[i].count
        invariant j <= models[i].count
        invariant permanent == if models[i].permanent then p + Repeated(i, j) else p
        invariant other == if models[i].permanent then o else o + Repeated(i, j)
      {
        if models[i].permanent {
          permanent := permanent + [i];
        } else {
          other := other + [i];
        }
        assert Repeated(i, j + 1) == Repeated(i, j) + [i];
        j := j + 1;
      }
      i := i + 1;
    }
  }

  ghost predicate PermanentPart(permanent: seq<nat>, limit: nat, t: seq<nat>) {
    t != [] && Within(limit, |t|) && Sorted(t) && multiset(t) <= multiset(permanent)
  }

  function Bound(limit: nat, n: nat): nat {
    if limit != 0 && limit < n then limit else n
  }

  lemma {:induction false} PartSize(t: seq<nat>, s: seq<nat>)
    requires multiset(t) <= multiset(s)
    ensures |t| <= |s|
  {
    assert |multiset(s) - multiset(t)| == |multiset(s)| - |multiset(t)|;
  }

  method AddAll(found: set<seq<nat>>, list: seq<seq<nat>>) returns (r: set<seq<nat>>)
    ensures forall t :: t in r <==> t in found || t in list
  {
    r := found;
    var i := 0;
    while i < |list|
      invariant i <= |list|
      invariant forall t :: t in r <==> t in found || t in list[..i]
    {
      assert list[..i + 1] == list[..i] + [list[i]];
      r := r + {list[i]};
      i := i + 1;
    }
    assert list[..i] == list;
  }

  ghost predicate Selected(s: seq<nat>, k: nat, t: seq<nat>) {
    1 <= |t| < k && t in Subsets(s, |t|)
  }

  /** All selections of permanent models within the limit. */
  method GatherPermanent(permanent: seq<nat>, limit: nat) returns (found: set<seq<nat>>)
    requires Sorted(permanent)
    ensures forall t :: t in found <==> PermanentPart(permanent, limit, t)
  {
    hide Sorted, Subsets;
    found := {};
    var upper, k := Bound(limit, |permanent|), 1;
    while k <= upper
      invariant 1 <= k <= upper + 1
      invariant forall t :: t in found <==> Selected(permanent, k, t)
    {
      found := AddAll(found, Subsets(permanent, k));
      SelectionSizes(permanent, k);
      k := k + 1;
    }
    forall t ensures t in found <==> PermanentPart(permanent, limit, t) {
      SelectedIs(permanent, limit, t);
    }
  }

  lemma {:induction false} SelectedIs(s: seq<nat>, limit: nat, t: seq<nat>)
    requires Sorted(s)
    ensures Selected(s, Bound(limit, |s|) + 1, t) <==> PermanentPart(s, limit, t)
  {
    hide Sorted, Subsets;
    SubsetsAre(s, |t|, t);
    if multiset(t) <= multiset(s) {
      PartSize(t, s);
    }
  }

  lemma {:induction false} SelectionSizes(s: seq<nat>, k: nat)
    requires Sorted(s)
    ensures forall t | t in Subsets(s, k) :: |t| == k
  {
    forall t | t in Subsets(s, k) ensures |t| == k {
      SubsetsAre(s, k, t);
    }
  }

  // ----- Arrangements behind the permanent models -----

  /** An arrangement itself, or behind one of the permanent selections if both fit. */
  ghost predicate Behind(perms: set<seq<nat>>, limit: nat, b: seq<nat>, x: seq<nat>) {
    x == b || exists a :: a in perms && Prepended(limit, a, b, x)
  }

  predicate Prepended(limit: nat, a: seq<nat>, b: seq<nat>, x: seq<nat>) {
    x == a + b && Within(limit, |x|)
  }

  /** One arrangement, alone and behind every permanent selection. */
  method AddArrangement(all: set<seq<nat>>, perms: set<seq<nat>>, limit: nat, b: seq<nat>) returns (r: set<seq<nat>>)
    ensures forall x :: x in r <==> x in all || Behind(perms, limit, b, x)
  {
    r := all + {b};
    var todo := perms;
    while todo != {}
      invariant todo <= perms
      invariant forall x :: x in r <==> x in all || Behind(perms - todo, limit, b, x)
      decreases |todo|
    {
      var a :| a in todo;
      ghost var done, before := perms - todo, r;
      if limit == 0 || |a| + |b| <= limit {
        r := r + {a + b};
      }
      todo := todo - {a};
      assert perms - todo == done + {a};
      MoreBehind(before, r, all, done, a, limit, b);
    }
    assert perms - todo == perms;
  }

  lemma {:induction false} MoreBehind(before: set<seq<nat>>, r: set<seq<nat>>, all: set<seq<nat>>, done: set<seq<nat>>,
                                      a: seq<nat>, limit: nat, b: seq<nat>)
    requires forall x :: x in before <==> x in all || Behind(done, limit, b, x)
    requires r == if limit == 0 || |a| + |b| <= limit then before + {a + b} else before
    ensures forall x :: x in r <==> x in all || Behind(done + {a}, limit, b, x)
  {
    forall x ensures x in r <==> x in all || Behind(done + {a}, limit, b, x) {
      if x == a + b && Within(limit, |x|) {
        assert Prepended(limit, a, b, x);
      }
      if Behind(done, limit, b, x) && x != b {
        var c :| c in done && Prepended(limit, c, b, x);
        assert c in done + {a};
      }
    }
  }

  /** x comes from one of a set of arrangements. */
  ghost predicate BehindAny(perms: set<seq<nat>>, limit: nat, bs: set<seq<nat>>, x: seq<nat>) {
    exists b :: b in bs && Behind(perms, limit, b, x)
  }

  /** Stepping through the arrangements of one selection. */
  method AddArrangements(all: set<seq<nat>>, perms: set<seq<nat>>, limit: nat, subset: seq<nat>)
    returns (r: set<seq<nat>>)
    ensures forall x :: x in r <==> x in all || BehindAny(perms, limit, Arrangements(subset), x)
  {
    hide Behind, Arrangements;
    r := all;
    var arrangements := Arrangements(subset);
    var todo := arrangements;
    while todo != {}
      invariant todo <= arrangements
      invariant forall x :: x in r <==> x in all || BehindAny(perms, limit, arrangements - todo, x)
      decreases |todo|
    {
      var b :| b in todo;
      ghost var done, before := arrangements - todo, r;
      r := AddArrangement(r, perms, limit, b);
      todo := todo - {b};
      assert arrangements - todo == done + {b};
      MoreAny(before, r, all, perms, limit, done, b);
    }
    assert arrangements - todo == arrangements;
  }

  lemma {:induction false} MoreAny(before: set<seq<nat>>, r: set<seq<nat>>, all: set<seq<nat>>, perms: set<seq<nat>>,
                                   limit: nat, done: set<seq<nat>>, b: seq<nat>)
    requires forall x :: x in before <==> x in all || BehindAny(perms, limit, done, x)
    requires forall x :: x in r <==> x in before || Behind(perms, limit, b, x)
    ensures forall x :: x in r <==> x in all || BehindAny(perms, limit, done + {b}, x)
  {
    hide Behind;
    forall x ensures x in r <==> x in all || BehindAny(perms, limit, done + {b}, x) {
      if Behind(perms, limit, b, x) {
        assert b in done + {b};
      }
      if BehindAny(perms, limit, done, x) {
        var d :| d in done && Behind(perms, limit, d, x);
        assert d in done + {b};
      }
    }
  }

  /** x comes from an arrangement of one of a list of selections. */
  ghost predicate BehindSome(perms: set<seq<nat>>, limit: nat, subsets: seq<seq<nat>>, x: seq<nat>) {
    exists t :: t in subsets && BehindAny(perms, limit, Arrangements(t), x)
  }

  /** All selections of one size. */
  method AddSelections(all: set<seq<nat>>, perms: set<seq<nat>>, limit: nat, subsets: seq<seq<nat>>)
    returns (r: set<seq<nat>>)
    ensures forall x :: x in r <==> x in all || BehindSome(perms, limit, subsets, x)
  {
    hide BehindAny, Arrangements;
    r := all;
    var i := 0;
    while i < |subsets|
      invariant i <= |subsets|
      invariant forall x :: x in r <==> x in all || BehindSome(perms, limit, subsets[..i], x)
    {
      ghost var before := r;
      r := AddArrangements(r, perms, limit, subsets[i]);
      MoreSome(before, r, all, perms, limit, subsets, i);
      i := i + 1;
    }
    assert subsets[..i] == subsets;
  }

  lemma {:induction false} MoreSome(before: set<seq<nat>>, r: set<seq<nat>>, all: set<seq<nat>>, perms: set<seq<nat>>,
                                    limit: nat, subsets: seq<seq<nat>>, i: nat)
    requires i < |subsets|
    requires forall x :: x in before <==> x in all || BehindSome(perms, limit, subsets[..i], x)
    requires forall x :: x in r <==> x in before || BehindAny(perms, limit, Arrangements(subsets[i]), x)
    ensures forall x :: x in r <==> x in all || BehindSome(perms, limit, subsets[..i + 1], x)
  {
    hide BehindAny, Arrangements;
    assert subsets[..i + 1] == subsets[..i] + [subsets[i]];
    forall x ensures x in r <==> x in all || BehindSome(perms, limit, subsets[..i + 1], x) {
      if BehindAny(perms, limit, Arrangements(subsets[i]), x) {
        assert subsets[i] in subsets[..i + 1];
      }
      if BehindSome(perms, limit, subsets[..i], x) {
        var t :| t in subsets[..i] && BehindAny(perms, limit, Arrangements(t), x);
        assert t in subsets[..i + 1];
      }
    }
  }

  /** A sorted list with the same elements. */
  function SortedList(s: seq<nat>): (r: seq<nat>)
    ensures Sorted(r) && multiset(r) == multiset(s)
  {
    if s == [] then []
    else
      assert s == [s[0]] + s[1..];
      Slotted(s[0], SortedList(s[1..]))
  }

  function Slotted(x: nat, s: seq<nat>): (r: seq<nat>)
    requires Sorted(s)
    ensures Sorted(r) && multiset(r) == multiset{x} + multiset(s)
  {
    if s == [] || x <= s[0] then
      SortedCons(x, s);
      AllAbove(x, s);
      [x] + s
    else
      assert s == [s[0]] + s[1..];
      SortedCons(s[0], s[1..]);
      var r := Slotted(x, s[1..]);
      Smallest(s[0], x, s[1..], r);
      SortedCons(s[0], r);
      [s[0]] + r
  }

  lemma {:induction false} AllAbove(x: nat, s: seq<nat>)
    requires Sorted(s) && (s == [] || x <= s[0])
    ensures forall y | y in s :: x <= y
  {
    forall y | y in s ensures x <= y {
      var i :| 0 <= i < |s| && s[i] == y;
      assert i > 0 ==> s[0] <= s[i];
    }
  }

  lemma {:induction false} Smallest(h: nat, x: nat, s: seq<nat>, r: seq<nat>)
    requires h <= x && (forall y | y in s :: h <= y) && multiset(r) == multiset{x} + multiset(s)
    ensures forall y | y in r :: h <= y
  {
    forall y | y in r ensures h <= y {
      assert y in multiset(r);
      assert y in multiset{x} + multiset(s);
      assert y == x || y in s;
    }
  }

  ghost predicate OtherPart(other: seq<nat>, b: seq<nat>) {
    b != [] && multiset(b) <= multiset(other)
  }

  /** Arrangements of selections of a size are the lists of that size that are parts. */
  lemma {:induction false} ArrangedSelections(s: seq<nat>, k: nat, b: seq<nat>)
    requires Sorted(s)
    ensures (exists t :: t in Subsets(s, k) && b in Arrangements(t)) <==> |b| == k && multiset(b) <= multiset(s)
  {
    hide Sorted, Subsets, Arrangements;
    forall t | t in Subsets(s, k) && b in Arrangements(t) ensures |b| == k && multiset(b) <= multiset(s) {
      SubsetsAre(s, k, t);
      ArrangementsAre(t, b);
      assert |multiset(b)| == |b| && |multiset(t)| == |t|;
    }
    if |b| == k && multiset(b) <= multiset(s) {
      var t := SortedList(b);
      assert |multiset(b)| == |b| && |multiset(t)| == |t|;
      SubsetsAre(s, k, t);
      ArrangementsAre(t, b);
    }
  }

  ghost predicate BehindPart(perms: set<seq<nat>>, limit: nat, other: seq<nat>, k: nat, x: seq<nat>) {
    exists b :: OtherPart(other, b) && |b| < k && Behind(perms, limit, b, x)
  }

  lemma {:induction false} MoreParts(perms: set<seq<nat>>, limit: nat, other: seq<nat>, k: nat, x: seq<nat>)
    requires Sorted(other) && k > 0
    ensures BehindPart(perms, limit, other, k + 1, x) <==>
      BehindPart(perms, limit, other, k, x) || BehindSome(perms, limit, Subsets(other, k), x)
  {
    hide Behind, Sorted, Subsets, Arrangements;
    if BehindSome(perms, limit, Subsets(other, k), x) {
      var t :| t in Subsets(other, k) && BehindAny(perms, limit, Arrangements(t), x);
      var b :| b in Arrangements(t) && Behind(perms, limit, b, x);
      ArrangedSelections(other, k, b);
      assert OtherPart(other, b);
    }
    if BehindPart(perms, limit, other, k, x) {
      var b :| OtherPart(other, b) && |b| < k && Behind(perms, limit, b, x);
      assert |b| < k + 1;
    }
    if BehindPart(perms, limit, other, k + 1, x) {
      var b :| OtherPart(other, b) && |b| < k + 1 && Behind(perms, limit, b, x);
      ArrangedSelections(other, k, b);
      if |b| == k {
        var t :| t in Subsets(other, k) && b in Arrangements(t);
        assert BehindAny(perms, limit, Arrangements(t), x);
      }
    }
  }

  /** The whole set of entries, before sorting. */
  method GatherAll(perms: set<seq<nat>>, other: seq<nat>, limit: nat) returns (all: set<seq<nat>>)
    requires Sorted(other)
    ensures forall x :: x in all <==> x in perms || BehindPart(perms, limit, other, Bound(limit, |other|) + 1, x)
  {
    hide Behind, Sorted, Subsets;
    all := perms;
    var upper, k := Bound(limit, |other|), 1;
    while k <= upper
      invariant 1 <= k <= upper + 1
      invariant forall x :: x in all <==> x in perms || BehindPart(perms, limit, other, k, x)
    {
      ghost var before := all;
      all := AddSelections(all, perms, limit, Subsets(other, k));
      forall x ensures x in all <==> x in perms || BehindPart(perms, limit, other, k + 1, x) {
        MoreParts(perms, limit, other, k, x);
      }
      k := k + 1;
    }
  }

  /** Inserts an entry into the ordered list. */
  method Slot(list: seq<seq<nat>>, x: seq<nat>) returns (r: seq<seq<nat>>)
    requires Ordered(list) && x !in list
    ensures Ordered(r) && forall y :: y in r <==> y == x || y in list
  {
    hide Earlier;
    var i := 0;
    while i < |list| && Earlier(list[i], x)
      invariant i <= |list| && forall j | 0 <= j < i :: Earlier(list[j], x)
    {
      i := i + 1;
    }
    r := list[..i] + [x] + list[i..];
    SlotOrdered(list, x, i);
  }

  lemma {:induction false} SlotOrdered(list: seq<seq<nat>>, x: seq<nat>, i: nat)
    requires Ordered(list) && x !in list && i <= |list|
    requires forall j | 0 <= j < i :: Earlier(list[j], x)
    requires i < |list| ==> !Earlier(list[i], x)
    ensures Ordered(list[..i] + [x] + list[i..])
    ensures forall y :: y in list[..i] + [x] + list[i..] <==> y == x || y in list
  {
    hide Earlier;
    var r := list[..i] + [x] + list[i..];
    assert list == list[..i] + list[i..];
    if i < |list| {
      EarlierTotal(list[i], x);
      forall j | i <= j < |list| ensures Earlier(x, list[j]) {
        if j > i {
          EarlierTrans(x, list[i], list[j]);
        }
      }
    }
    forall a, b | 0 <= a < b < |r| ensures Earlier(r[a], r[b]) {
      assert a < i ==> r[a] == list[a];
      assert a > i ==> r[a] == list[a - 1];
      assert b < i ==> r[b] == list[b];
      assert b > i ==> r[b] == list[b - 1];
    }
  }

  /** Sorting by size, then lexicographically. */
  method Sort(all: set<seq<nat>>) returns (list: seq<seq<nat>>)
    ensures Ordered(list) && forall x :: x in list <==> x in all
  {
    hide Ordered;
    list := [];
    var todo := all;
    NothingOrdered();
    while todo != {}
      invariant todo <= all && Ordered(list)
      invariant forall x :: x in list <==> x in all - todo
      decreases |todo|
    {
      var x :| x in todo;
      list := Slot(list, x);
      todo := todo - {x};
    }
  }

  lemma {:induction false} NothingOrdered()
    ensures Ordered([])
  {
  }

  // ----- The plan is exact -----

  lemma {:induction false} PartsJoin(models: seq<Entry>, limit: nat, a: seq<nat>, b: seq<nat>)
    requires Sorted(a) && multiset(a) <= multiset(Permanent(models)) && multiset(b) <= multiset(Other(models))
    requires a + b != [] && Within(limit, |a + b|)
    ensures Planned(models, limit, a + b)
  {
    hide Sorted, Permanent, Other;
    var x := a + b;
    assert x[..|a|] == a && x[|a|..] == b;
    assert Splits(models, x, |a|);
  }

  lemma {:induction false} GatheredPlanned(models: seq<Entry>, limit: nat, perms: set<seq<nat>>, x: seq<nat>)
    requires forall t :: t in perms <==> PermanentPart(Permanent(models), limit, t)
    requires x in perms || BehindPart(perms, limit, Other(models), Bound(limit, |Other(models)|) + 1, x)
    ensures Planned(models, limit, x)
  {
    hide Sorted, Permanent, Other, Planned;
    EmptySorted();
    if x in perms {
      PartsJoin(models, limit, x, []);
      assert x + [] == x;
    } else {
      var b :| OtherPart(Other(models), b) && |b| < Bound(limit, |Other(models)|) + 1 && Behind(perms, limit, b, x);
      if x == b {
        PartsJoin(models, limit, [], b);
        assert [] + b == b;
      } else {
        var a :| a in perms && Prepended(limit, a, b, x);
        PartsJoin(models, limit, a, b);
      }
    }
  }

  lemma {:induction false} PlannedGathered(models: seq<Entry>, limit: nat, perms: set<seq<nat>>, x: seq<nat>)
    requires forall t :: t in perms <==> PermanentPart(Permanent(models), limit, t)
    requires Planned(models, limit, x)
    ensures x in perms || BehindPart(perms, limit, Other(models), Bound(limit, |Other(models)|) + 1, x)
  {
    hide Sorted, Permanent, Other, Behind;
    var k: nat :| Splits(models, x, k);
    var a, b := x[..k], x[k..];
    assert x == a + b;
    if b == [] {
      assert a == x;
    } else {
      PartSize(b, Other(models));
      SplitBehind(Permanent(models), perms, limit, a, b);
      assert OtherPart(Other(models), b);
    }
  }

  lemma {:induction false} SplitBehind(permanent: seq<nat>, perms: set<seq<nat>>, limit: nat, a: seq<nat>, b: seq<nat>)
    requires forall t :: t in perms <==> PermanentPart(permanent, limit, t)
    requires Sorted(a) && multiset(a) <= multiset(permanent) && Within(limit, |a + b|)
    ensures Behind(perms, limit, b, a + b)
  {
    hide Sorted;
    if a == [] {
      assert a + b == b;
    } else {
      assert a in perms;
      assert Prepended(limit, a, b, a + b);
    }
  }

  lemma {:induction false} EmptySorted()
    ensures Sorted([]) && forall s: seq<nat> :: multiset([]) <= multiset(s)
  {
  }

  /** The plan lists, each once and in order, the entries that belong in it: a sorted part of the permanent
      models followed by any arrangement of a part of the others, within the limit. */
  method ComputePlan(models: seq<Entry>, limit: nat) returns (plan: seq<seq<nat>>)
    ensures Ordered(plan)
    ensures forall x :: x in plan <==> Planned(models, limit, x)
  {
    hide Sorted, Ordered, Permanent, Other, Ids;
    var permanent, other := SplitModels(models);
    IdsSorted(models, true, |models|);
    IdsSorted(models, false, |models|);
    KindsSorted(models);
    var perms := GatherPermanent(permanent, limit);
    var all := GatherAll(perms, other, limit);
    forall x ensures x in all <==> Planned(models, limit, x) {
      if x in all {
        GatheredPlanned(models, limit, perms, x);
      }
      if Planned(models, limit, x) {
        PlannedGathered(models, limit, perms, x);
      }
    }
    plan := Sort(all);
  }

  lemma {:induction false} KindsSorted(models: seq<Entry>)
    ensures Sorted(Permanent(models)) && Sorted(Other(models))
  {
    IdsSorted(models, true, |models|);
    IdsSorted(models, false, |models|);
  }

  // ----- What is known when -----

  lemma {:induction false} PartTrans(a: multiset<nat>, b: multiset<nat>, c: multiset<nat>)
    requires a <= b && b <= c
    ensures a <= c
  {
  }

  lemma {:induction false} SplitOf(models: seq<Entry>, x: seq<nat>, k: nat, a: seq<nat>, b: seq<nat>)
    requires k == |a| && x == a + b
    ensures Splits(models, x, k) <==>
      Sorted(a) && multiset(a) <= multiset(Permanent(models)) && multiset(b) <= multiset(Other(models))
  {
    hide Permanent, Other, Sorted;
    assert x[..k] == a && x[k..] == b;
  }

  lemma {:induction false} Shorter(models: seq<Entry>, limit: nat, x: seq<nat>)
    requires Planned(models, limit, x) && |x| > 1
    ensures Planned(models, limit, x[..|x| - 1])
  {
    hide Permanent, Other, Splits, Sorted;
    var k: nat :| Splits(models, x, k);
    SplitInside(models, x, k);
    var n := |x| - 1;
    var a, b := x[..k], x[k..];
    SplitOf(models, x, k, a, b);
    if k == |x| {
      assert a == x[..n] + [x[n]];
      InitialPart(x[..n], x[n]);
      PartTrans(multiset(x[..n]), multiset(a), multiset(Permanent(models)));
      EmptySorted();
      SplitOf(models, x[..n], n, x[..n], []);
    } else {
      assert b == x[k..n] + [x[n]];
      InitialPart(x[k..n], x[n]);
      PartTrans(multiset(x[k..n]), multiset(b), multiset(Other(models)));
      assert x[..n] == a + x[k..n];
      SplitOf(models, x[..n], k, a, x[k..n]);
    }
  }

  lemma {:induction false} SplitInside(models: seq<Entry>, x: seq<nat>, k: nat)
    requires Splits(models, x, k)
    ensures k <= |x|
  {
  }

  lemma {:induction false} InitialPart(a: seq<nat>, x: nat)
    ensures multiset(a) <= multiset(a + [x]) && multiset([x]) <= multiset(a + [x])
    ensures Sorted(a + [x]) ==> Sorted(a)
  {
    var s := a + [x];
    if Sorted(s) {
      forall i, j | 0 <= i < j < |a| ensures a[i] <= a[j] {
        assert s[i] <= s[j];
      }
    }
  }

  lemma {:induction false} LastAlone(models: seq<Entry>, limit: nat, x: seq<nat>)
    requires Planned(models, limit, x)
    ensures Planned(models, limit, [x[|x| - 1]])
  {
    hide Permanent, Other, Splits, Sorted;
    var k: nat :| Splits(models, x, k);
    SplitInside(models, x, k);
    var n := |x| - 1;
    var a, b, y := x[..k], x[k..], [x[n]];
    SplitOf(models, x, k, a, b);
    EmptySorted();
    if k == |x| {
      assert a == x[..n] + y;
      InitialPart(x[..n], x[n]);
      PartTrans(multiset(y), multiset(a), multiset(Permanent(models)));
      SortedOne(x[n]);
      SplitOf(models, y, 1, y, []);
    } else {
      assert b == x[k..n] + y;
      InitialPart(x[k..n], x[n]);
      PartTrans(multiset(y), multiset(b), multiset(Other(models)));
      SplitOf(models, y, 0, [], y);
    }
  }

  lemma {:induction false} SortedOne(x: nat)
    ensures Sorted([x])
  {
  }

  lemma {:induction false} OrderedPlace(list: seq<seq<nat>>, x: seq<nat>, i: nat) returns (j: nat)
    requires Ordered(list) && i < |list| && x in list && |x| < |list[i]|
    ensures j < i && list[j] == x
  {
    j :| 0 <= j < |list| && list[j] == x;
    forall m | i <= m < |list| ensures |list[i]| <= |list[m]| {
      assert m > i ==> Earlier(list[i], list[m]);
    }
  }

  /** When an entry of several models is simulated, the entry without its last model and the entry with
      its last model alone have been simulated before: looking up what they found never misses. */
  lemma {:induction false} KnownBefore(models: seq<Entry>, limit: nat, plan: seq<seq<nat>>, i: nat)
    returns (j: nat, k: nat)
    requires Ordered(plan) && forall x :: x in plan <==> Planned(models, limit, x)
    requires i < |plan| && |plan[i]| > 1
    ensures j < i && plan[j] == plan[i][..|plan[i]| - 1]
    ensures k < i && plan[k] == [plan[i][|plan[i]| - 1]]
  {
    hide Planned, Ordered;
    var x := plan[i];
    Shorter(models, limit, x);
    LastAlone(models, limit, x);
    j := OrderedPlace(plan, x[..|x| - 1], i);
    k := OrderedPlace(plan, [x[|x| - 1]], i);
  }

  /** No entry is listed twice. */
  lemma {:induction false} ListedOnce(list: seq<seq<nat>>, i: nat, j: nat)
    requires Ordered(list) && i < j < |list|
    ensures list[i] != list[j]
  {
    EarlierTotal(list[i], list[j]);
  }

  // ----- What belongs in the plan, by counts -----

  lemma {:induction false} RepeatedCount(id: nat, count: nat, i: nat)
    ensures multiset(Repeated(id, count))[i] == if i == id then count else 0
    decreases count
  {
    if count > 0 {
      RepeatedCount(id, count - 1, i);
      assert Repeated(id, count) == Repeated(id, count - 1) + [id];
    } else {
      assert Repeated(id, count) == [];
    }
  }

  lemma {:induction false} IdsCount(models: seq<Entry>, permanent: bool, n: nat, i: nat)
    requires n <= |models|
    ensures multiset(Ids(models, permanent, n))[i] ==
      if i < n && models[i].permanent == permanent then models[i].count else 0
  {
    hide Repeated;
    if n > 0 {
      IdsCount(models, permanent, n - 1, i);
      RepeatedCount(n - 1, models[n - 1].count, i);
    }
  }

  /** No model occurs more often than it may be injected. */
  predicate Counted(models: seq<Entry>, x: seq<nat>) {
    forall y | y in x :: y < |models| && multiset(x)[y] <= models[y].count
  }

  /** The first k are permanent and ascend, the others are not permanent. */
  predicate PermanentThenOther(models: seq<Entry>, x: seq<nat>, k: nat) {
    && k <= |x| && (forall i | 0 <= i < |x| :: x[i] < |models| && (models[x[i]].permanent <==> i < k))
    && forall i, j | 0 <= i < j < k :: x[i] <= x[j]
  }

  lemma {:induction false} PartsCount(x: seq<nat>, k: nat, y: nat)
    requires k <= |x|
    ensures multiset(x)[y] == multiset(x[..k])[y] + multiset(x[k..])[y]
  {
    assert x == x[..k] + x[k..];
  }

  lemma {:induction false} OneCounted(models: seq<Entry>, x: seq<nat>, k: nat, y: nat)
    requires Splits(models, x, k)
    ensures y in x ==> y < |models| && multiset(x)[y] <= models[y].count
    ensures y in x[..k] ==> y < |models| && models[y].permanent
    ensures y in x[k..] ==> y < |models| && !models[y].permanent
  {
    hide Ids, Sorted;
    IdsCount(models, true, |models|, y);
    IdsCount(models, false, |models|, y);
    PartsCount(x, k, y);
    var p, o := multiset(x[..k]), multiset(x[k..]);
    assert p[y] <= multiset(Permanent(models))[y] && o[y] <= multiset(Other(models))[y];
    assert (y in x[..k] ==> p[y] > 0) && (y in x[k..] ==> o[y] > 0) && (y in x ==> multiset(x)[y] > 0);
  }

  lemma {:induction false} SplitsCounted(models: seq<Entry>, x: seq<nat>, k: nat)
    requires Splits(models, x, k)
    ensures Counted(models, x) && PermanentThenOther(models, x, k)
  {
    forall y | y in x
      ensures y < |models| && multiset(x)[y] <= models[y].count
    {
      OneCounted(models, x, k, y);
    }
    SplitsPlaced(models, x, k);
  }

  lemma {:induction false} SplitsPlaced(models: seq<Entry>, x: seq<nat>, k: nat)
    requires Splits(models, x, k)
    ensures PermanentThenOther(models, x, k)
  {
    hide Ids, Permanent, Other;
    var p, o := x[..k], x[k..];
    forall i | 0 <= i < |x|
      ensures x[i] < |models| && (models[x[i]].permanent <==> i < k)
    {
      OneCounted(models, x, k, x[i]);
      assert if i < k then x[i] == p[i] && x[i] in p else x[i] == o[i - k] && x[i] in o;
    }
    forall i, j | 0 <= i < j < k
      ensures x[i] <= x[j]
    {
      assert p[i] <= p[j];
    }
  }

  lemma {:induction false} OneSplits(models: seq<Entry>, x: seq<nat>, k: nat, y: nat)
    requires Counted(models, x) && PermanentThenOther(models, x, k)
    ensures multiset(x[..k])[y] <= multiset(Permanent(models))[y] && multiset(x[k..])[y] <= multiset(Other(models))[y]
  {
    hide Ids;
    IdsCount(models, true, |models|, y);
    IdsCount(models, false, |models|, y);
    PartsCount(x, k, y);
    PlacedKinds(models, x, k, y);
    assert y !in x[..k] ==> multiset(x[..k])[y] == 0;
    assert y !in x[k..] ==> multiset(x[k..])[y] == 0;
  }

  lemma {:induction false} PlacedKinds(models: seq<Entry>, x: seq<nat>, k: nat, y: nat)
    requires PermanentThenOther(models, x, k)
    ensures y in x[..k] ==> y in x && y < |models| && models[y].permanent
    ensures y in x[k..] ==> y in x && y < |models| && !models[y].permanent
  {
    if y in x[..k] {
      var i :| 0 <= i < k && x[..k][i] == y;
      assert x[i] == y;
    }
    if y in x[k..] {
      var i :| 0 <= i < |x| - k && x[k..][i] == y;
      assert x[k + i] == y;
    }
  }

  lemma {:induction false} CountedSplits(models: seq<Entry>, x: seq<nat>, k: nat)
    requires Counted(models, x) && PermanentThenOther(models, x, k)
    ensures Splits(models, x, k)
  {
    hide Counted, Permanent, Other;
    forall y: nat
      ensures multiset(x[..k])[y] <= multiset(Permanent(models))[y]
      ensures multiset(x[k..])[y] <= multiset(Other(models))[y]
    {
      OneSplits(models, x, k, y);
    }
  }

  /** An entry belongs in the plan exactly when it is not empty, within the limit, names no model more often than it
      may be injected, and its permanent models come first, in ascending order. */
  lemma {:induction false} PlannedIff(models: seq<Entry>, limit: nat, x: seq<nat>)
    ensures Planned(models, limit, x) <==>
      && x != [] && (limit == 0 || |x| <= limit) && Counted(models, x)
      && exists k: nat :: PermanentThenOther(models, x, k)
  {
    hide Splits, Counted, PermanentThenOther;
    forall k: nat | Splits(models, x, k)
      ensures Counted(models, x) && PermanentThenOther(models, x, k)
    {
      SplitsCounted(models, x, k);
    }
    forall k: nat | Counted(models, x) && PermanentThenOther(models, x, k)
      ensures Splits(models, x, k)
    {
      CountedSplits(models, x, k);
    }
  }
}
