/** Fault combinations, and the hash index that answers whether a combination contains one already known. */
module Redundancy {
  import opened Choosing

  // Faults are compared by these fields only.
  datatype InstructionId = InstructionId(model: nat, address: nat, time: nat, iteration: nat)
  datatype RegisterId = RegisterId(model: nat, register: nat, time: nat, iteration: nat)
  datatype FaultId = OfInstruction(i: InstructionId) | OfRegister(r: RegisterId)

  datatype Combination = Combination(instructionFaults: seq<InstructionId>, registerFaults: seq<RegisterId>) {
    function Size(): nat { |instructionFaults| + |registerFaults| }
  }

  // ---- In-order inclusion -----------------------------------------------------------------------

  /** `b` can be read off `a` in order, skipping elements. */
  ghost predicate InOrder<T>(a: seq<T>, b: seq<T>)
    decreases |a|
  {
    b == [] ||
    (a != [] && (InOrder(a[..|a| - 1], b) || (a[|a| - 1] == b[|b| - 1] && InOrder(a[..|a| - 1], b[..|b| - 1]))))
  }

  /** The same with explicit positions. */
  ghost predicate Picks<T>(a: seq<T>, b: seq<T>, at: seq<nat>) {
    && |at| == |b|
    && (forall i | 0 <= i < |at| :: at[i] < |a| && a[at[i]] == b[i])
    && (forall i, j | 0 <= i < j < |at| :: at[i] < at[j])
  }

  lemma {:induction false} InOrderIffPicks<T>(a: seq<T>, b: seq<T>)
    ensures InOrder(a, b) <==> exists at: seq<nat> :: Picks(a, b, at)
    decreases |a|
  {
    if b == [] {
      assert Picks(a, b, []);
    } else if a == [] {
      forall at: seq<nat> ensures !Picks(a, b, at) {
        if |at| == |b| {
          assert !(at[0] < |a|);
        }
      }
    } else {
      var n := |a| - 1;
      InOrderIffPicks(a[..n], b);
      InOrderIffPicks(a[..n], b[..|b| - 1]);
      if InOrder(a[..n], b) {
        var at :| Picks(a[..n], b, at);
        assert Picks(a, b, at);
      } else if a[n] == b[|b| - 1] && InOrder(a[..n], b[..|b| - 1]) {
        var at :| Picks(a[..n], b[..|b| - 1], at);
        assert Picks(a, b, at + [n]);
      }
      forall at: seq<nat> | Picks(a, b, at)
        ensures InOrder(a, b)
      {
        if at[|at| - 1] == n {
          assert Picks(a[..n], b[..|b| - 1], at[..|at| - 1]);
        } else {
          assert Picks(a[..n], b, at);
        }
      }
    }
  }

  lemma {:induction false} InOrderShorter<T>(a: seq<T>, b: seq<T>)
    requires InOrder(a, b)
    ensures |b| <= |a| && forall x | x in b :: x in a
    decreases |a|
  {
    if b != [] {
      var n := |a| - 1;
      if InOrder(a[..n], b) {
        InOrderShorter(a[..n], b);
      } else {
        InOrderShorter(a[..n], b[..|b| - 1]);
        assert b == b[..|b| - 1] + [b[|b| - 1]];
      }
    }
  }

  /** Dropping the last element wanted cannot hurt. */
  lemma {:induction false} InOrderPrefix<T>(a: seq<T>, b: seq<T>, n: nat)
    requires InOrder(a, b) && n <= |b|
    ensures InOrder(a, b[..n])
    decreases |a|, |b| - n
  {
    if n < |b| && n > 0 {
      var m := |a| - 1;
      if InOrder(a[..m], b) {
        InOrderPrefix(a[..m], b, n);
      } else {
        InOrderPrefix(a[..m], b[..|b| - 1], n);
        assert b[..|b| - 1][..n] == b[..n];
      }
    } else if n == |b| {
      assert b[..n] == b;
    }
  }

  /** The greedy scan. */
  method CustomIncludes<T(==)>(a: seq<T>, b: seq<T>) returns (r: bool)
    ensures r == InOrder(a, b)
  {
    var i := 0;
    if i == |b| {
      return true;
    }
    var k := 0;
    while k < |a|
      invariant 0 <= k <= |a| && 0 <= i < |b|
      invariant InOrder(a[..k], b[..i]) && !InOrder(a[..k], b[..i + 1])
    {
      assert a[..k + 1][..k] == a[..k] && b[..i + 1][..i] == b[..i];
      if a[k] == b[i] {
        assert InOrder(a[..k + 1], b[..i + 1]);
        i := i + 1;
        if i == |b| {
          InOrderMore(a, b, k + 1);
          return true;
        }
        GreedyStep(a, b, k, i);
      } else {
        GreedyMiss(a, b, k, i);
      }
      k := k + 1;
    }
    assert a[..k] == a;
    if InOrder(a, b) {
      InOrderPrefix(a, b, i + 1);
    }
    return false;
  }

  lemma {:induction false} InOrderMore<T>(a: seq<T>, b: seq<T>, k: nat)
    requires k <= |a| && InOrder(a[..k], b[..|b|])
    ensures InOrder(a, b)
    decreases |a| - k
  {
    assert b[..|b|] == b;
    if k < |a| {
      assert a[..k + 1][..k] == a[..k];
      InOrderMore(a, b, k + 1);
    } else {
      assert a[..k] == a;
    }
  }

  lemma {:induction false} GreedyStep<T>(a: seq<T>, b: seq<T>, k: nat, i: nat)
    requires k < |a| && 0 < i < |b| && !InOrder(a[..k], b[..i])
    ensures !InOrder(a[..k + 1], b[..i + 1])
  {
    assert a[..k + 1][..k] == a[..k] && b[..i + 1][..i] == b[..i];
    if InOrder(a[..k], b[..i + 1]) {
      InOrderPrefix(a[..k], b[..i + 1], i);
    }
  }

  lemma {:induction false} GreedyMiss<T>(a: seq<T>, b: seq<T>, k: nat, i: nat)
    requires k < |a| && i < |b| && a[k] != b[i] && InOrder(a[..k], b[..i]) && !InOrder(a[..k], b[..i + 1])
    ensures InOrder(a[..k + 1], b[..i]) && !InOrder(a[..k + 1], b[..i + 1])
  {
    assert a[..k + 1][..k] == a[..k];
  }

  ghost predicate Included(c: Combination, other: Combination) {
    InOrder(c.instructionFaults, other.instructionFaults) && InOrder(c.registerFaults, other.registerFaults)
  }

  method Includes(c: Combination, other: Combination) returns (r: bool)
    ensures r == Included(c, other)
  {
    if |c.instructionFaults| < |other.instructionFaults| || |c.registerFaults| < |other.registerFaults| {
      if Included(c, other) {
        InOrderShorter(c.instructionFaults, other.instructionFaults);
        InOrderShorter(c.registerFaults, other.registerFaults);
      }
      return false;
    }
    r := CustomIncludes(c.instructionFaults, other.instructionFaults);
    if r {
      r := CustomIncludes(c.registerFaults, other.registerFaults);
    }
  }

  /** One combination includes another when the faults of either kind of the other one occur in it, in order. */
  lemma {:induction false} IncludedIff(c: Combination, other: Combination)
    ensures Included(c, other) <==>
      && (exists at: seq<nat> :: Picks(c.instructionFaults, other.instructionFaults, at))
      && (exists at: seq<nat> :: Picks(c.registerFaults, other.registerFaults, at))
  {
    hide InOrder, Picks;
    InOrderIffPicks(c.instructionFaults, other.instructionFaults);
    InOrderIffPicks(c.registerFaults, other.registerFaults);
  }

  // ---- The hash index ---------------------------------------------------------------------------

  /** `combine` stands for hash_combine on a fault's identity, `sort` for the order in which a combination
      lists its faults: any function of the identities, and any rearrangement. */
  datatype Hashing = Hashing(combine: (nat, FaultId) -> nat, sort: seq<FaultId> -> seq<FaultId>)

  ghost predicate Rearranges(h: Hashing) {
    forall s :: multiset(h.sort(s)) == multiset(s)
  }

  function Faults(c: Combination): (r: seq<FaultId>)
    ensures |r| == c.Size()
  {
    seq(|c.instructionFaults|, i requires 0 <= i < |c.instructionFaults| => OfInstruction(c.instructionFaults[i]))
    + seq(|c.registerFaults|, i requires 0 <= i < |c.registerFaults| => OfRegister(c.registerFaults[i]))
  }

  /** Every single fault is among the selections of size one. */
  lemma {:induction false} SingletonChosen(s: seq<FaultId>, x: FaultId)
    requires x in s
    ensures [x] in Subsets(s, 1)
    decreases |s|
  {
    if s[0] == x {
      assert Subsets<FaultId>(s[1..], 0) == [[]];
      assert Prefixed(x, [[]])[0] == [x] + [];
      assert Subsets(s, 1)[0] == [x];
    } else {
      assert x in s[1..];
      SingletonChosen(s[1..], x);
    }
  }

  function HashFrom(h: Hashing, seed: nat, subset: seq<FaultId>): nat
    decreases |subset|
  {
    if subset == [] then seed else HashFrom(h, h.combine(seed, subset[0]), subset[1..])
  }

  function HashOf(h: Hashing, subset: seq<FaultId>): nat {
    HashFrom(h, 0, subset)
  }

  method Hash(h: Hashing, subset: seq<FaultId>) returns (hash: nat)
    ensures hash == HashOf(h, subset)
  {
    hash := 0;
    var i := 0;
    while i < |subset|
      invariant 0 <= i <= |subset|
      invariant HashFrom(h, hash, subset[i..]) == HashOf(h, subset)
    {
      assert subset[i..][0] == subset[i] && subset[i..][1..] == subset[i + 1..];
      hash := h.combine(hash, subset[i]);
      i := i + 1;
    }
  }

  ghost predicate BySize(list: seq<Combination>) {
    forall i, j | 0 <= i < j < |list| :: list[i].Size() <= list[j].Size()
  }

  ghost predicate Strict(list: seq<nat>) {
    forall i, j | 0 <= i < j < |list| :: list[i] < list[j]
  }

  /** Binary search in the sorted hashes. */
  method BinarySearch(list: seq<nat>, x: nat) returns (found: bool)
    requires Strict(list)
    ensures found == (x in list)
  {
    var lo, hi := 0, |list|;
    while lo < hi
      invariant 0 <= lo <= hi <= |list|
      invariant forall i | 0 <= i < |list| && !(lo <= i < hi) :: list[i] != x
    {
      var mid := (lo + hi) / 2;
      if list[mid] == x {
        return true;
      } else if list[mid] < x {
        lo := mid + 1;
      } else {
        hi := mid;
      }
    }
    return false;
  }

  /** Sorting and dropping duplicates, by inserting one value after the other. */
  method RemoveDuplicates(list: seq<nat>) returns (r: seq<nat>)
    ensures Strict(r) && forall x :: x in r <==> x in list
  {
    r := [];
    var i := 0;
    while i < |list|
      invariant 0 <= i <= |list| && Strict(r)
      invariant forall x :: x in r <==> x in list[..i]
    {
      r := Insert(r, list[i]);
      assert list[..i + 1] == list[..i] + [list[i]];
      i := i + 1;
    }
    assert list[..i] == list;
  }

  lemma {:induction false} StrictInsert(list: seq<nat>, k: nat, x: nat)
    requires Strict(list) && k <= |list| && forall i | 0 <= i < k :: list[i] < x
    requires k < |list| ==> x < list[k]
    ensures var r := list[..k] + [x] + list[k..]; Strict(r) && forall y :: y in r <==> y == x || y in list
  {
    var r := list[..k] + [x] + list[k..];
    forall i | 0 <= i < |r|
      ensures r[i] == if i < k then list[i] else if i == k then x else list[i - 1]
    {
    }
    assert list == list[..k] + list[k..];
  }

  method Insert(list: seq<nat>, x: nat) returns (r: seq<nat>)
    requires Strict(list)
    ensures Strict(r) && forall y :: y in r <==> y == x || y in list
  {
    hide Strict;
    var k := 0;
    while k < |list| && list[k] < x
      invariant 0 <= k <= |list| && forall i | 0 <= i < k :: list[i] < x
    {
      k := k + 1;
    }
    if k < |list| && list[k] == x {
      return list;
    }
    StrictInsert(list, k, x);
    r := list[..k] + [x] + list[k..];
  }

  class RedundancyIndex {
    const h: Hashing
    var hashes: seq<nat>
    var table: map<nat, seq<Combination>>
    ghost var known: seq<Combination>

    constructor (h: Hashing)
      ensures this.h == h && hashes == [] && table == map[] && known == []
    {
      this.h := h;
      hashes, table, known := [], map[], [];
    }

    /** `f` can be found under the hash of each of its faults. */
    ghost predicate Listed(f: Combination)
      reads this
    {
      forall x | x in h.sort(Faults(f)) :: HashOf(h, [x]) in table && f in table[HashOf(h, [x])]
    }

    ghost predicate TableSound()
      reads this
    {
      forall k | k in table :: BySize(table[k]) && forall f | f in table[k] :: f in known
    }

    ghost predicate Valid()
      reads this
    {
      && Rearranges(h) && Strict(hashes)
      && (forall k :: k in hashes <==> k in table)
      && TableSound()
      && (forall f | f in known :: f.Size() > 0 && Listed(f))
    }

    /** Files one known combination under one of its hashes. */
    method Add(hash: nat, f: Combination)
      requires TableSound() && f in known
      requires hash in table ==> forall g | g in table[hash] :: g.Size() <= f.Size()
      modifies `table, `hashes
      ensures TableSound() && hash in table && f in table[hash]
      ensures forall k | k in old(table) :: k in table && forall g | g in old(table)[k] :: g in table[k]
      ensures table.Keys == old(table).Keys + {hash}
      ensures forall k | k in table :: forall g | g in table[k] :: g == f || (k in old(table) && g in old(table)[k])
      ensures hashes == old(hashes) + [hash]
    {
      hashes := hashes + [hash];
      var row := if hash in table then table[hash] else [];
      table := table[hash := row + [f]];
    }

    /** The index under construction: the first `n` known combinations, and the current one in part. */
    ghost predicate Filling(n: nat)
      reads this
    {
      && Rearranges(h) && n <= |known| && BySize(known) && (forall f | f in known :: f.Size() > 0)
      && TableSound()
      && (forall k :: k in hashes <==> k in table)
      && (forall k | k in table :: forall g | g in table[k] :: exists j :: 0 <= j <= n && j < |known| && g == known[j])
      && (forall j | 0 <= j < n :: Listed(known[j]))
    }

    method File(f: Combination, subset: seq<FaultId>, ghost n: nat)
      requires Filling(n) && n < |known| && f == known[n]
      modifies `table, `hashes
      ensures Filling(n) && HashOf(h, subset) in table && known[n] in table[HashOf(h, subset)]
      ensures forall k | k in old(table) :: k in table && forall g | g in old(table)[k] :: g in table[k]
    {
      var hash := Hash(h, subset);
      ghost var t := table;
      if hash in t {
        forall g: Combination | g in t[hash]
          ensures g.Size() <= known[n].Size()
        {
          var j :| 0 <= j <= n && g == known[j];
        }
      }
      Add(hash, f);
      forall j | 0 <= j < n
        ensures Listed(known[j])
      {
      }
    }

    /** Builds the index over combinations already found. */
    method Prepare(list: seq<Combination>)
      requires Rearranges(h) && BySize(list) && forall f | f in list :: f.Size() > 0
      modifies this
      ensures Valid() && known == list
    {
      hashes, table, known := [], map[], list;
      var n := 0;
      while n < |list|
        invariant 0 <= n <= |list| && known == list && Filling(n)
      {
        FileAll(list[n], n);
        n := n + 1;
      }
      forall f | f in known
        ensures Listed(f)
      {
        var j :| 0 <= j < n && known[j] == f;
      }
      hashes := RemoveDuplicates(hashes);
    }

    ghost predicate Filed(f: Combination, subset: seq<FaultId>)
      reads this
    {
      HashOf(h, subset) in table && f in table[HashOf(h, subset)]
    }

    /** Files one combination under the hashes of all its selections of one size. */
    method FileSize(f: Combination, faults: seq<FaultId>, k: nat, ghost n: nat)
      requires Filling(n) && n < |known| && f == known[n]
      modifies `table, `hashes
      ensures Filling(n)
      ensures k == 1 ==> forall x | x in faults :: Filed(f, [x])
      ensures forall s | old(Filed(f, s)) :: Filed(f, s)
    {
      hide Filling, HashOf;
      var subsets := Subsets(faults, k);
      var i := 0;
      while i < |subsets|
        invariant 0 <= i <= |subsets| && Filling(n)
        invariant forall j | 0 <= j < i :: Filed(f, subsets[j])
        invariant forall s | old(Filed(f, s)) :: Filed(f, s)
      {
        File(f, subsets[i], n);
        i := i + 1;
      }
      if k == 1 {
        forall x | x in faults
          ensures Filed(f, [x])
        {
          SingletonChosen(faults, x);
          var j :| 0 <= j < |subsets| && subsets[j] == [x];
        }
      }
    }

    method FileAll(f: Combination, ghost n: nat)
      requires Filling(n) && n < |known| && f == known[n]
      modifies `table, `hashes
      ensures Filling(n + 1)
    {
      var faults := h.sort(Faults(f));
      var k := 1;
      while k <= |faults|
        invariant 1 <= k <= |faults| + 1 && Filling(n)
        invariant k > 1 ==> forall x | x in faults :: Filed(f, [x])
      {
        FileSize(f, faults, k, n);
        k := k + 1;
      }
      SortedNonEmpty(f);
      assert Listed(f);
    }

    lemma {:induction false} SortedNonEmpty(f: Combination)
      requires Rearranges(h) && f.Size() > 0
      ensures |h.sort(Faults(f))| > 0
      ensures forall x :: x in h.sort(Faults(f)) <==> x in Faults(f)
    {
      var s, t := h.sort(Faults(f)), Faults(f);
      assert multiset(s) == multiset(t);
      assert |multiset(s)| == |s| && |multiset(t)| == |t|;
      forall x
        ensures x in s <==> x in t
      {
        assert x in s <==> x in multiset(s);
        assert x in t <==> x in multiset(t);
      }
    }

    /** Whether `c` contains a known combination.  The list under one hash is cut short at the first entry
        that is longer than `c`. */
    method IsFaultRedundant(c: Combination) returns (redundant: bool)
      requires Valid()
      ensures redundant <==> exists f | f in known :: Included(c, f)
    {
      if hashes == [] {
        if exists f | f in known :: Included(c, f) {
          var f :| f in known && Included(c, f);
          KnownHasHash(f);
        }
        return false;
      }
      var faults := h.sort(Faults(c));
      var k := 1;
      while k <= |faults|
        invariant 1 <= k <= |faults| + 1
        invariant k > 1 ==> forall x | x in faults :: NoneUnder(c, HashOf(h, [x]))
      {
        redundant := SearchSize(c, faults, k);
        if redundant {
          return true;
        }
        k := k + 1;
      }
      forall f | f in known
        ensures !Included(c, f)
      {
        if Included(c, f) {
          var x := SharedFault(c, f);
          assert false;
        }
      }
      return false;
    }

    /** Looks up the hashes of all selections of one size. */
    method SearchSize(c: Combination, faults: seq<FaultId>, k: nat) returns (any: bool)
      requires Valid()
      ensures any ==> exists f | f in known :: Included(c, f)
      ensures !any && k == 1 ==> forall x | x in faults :: NoneUnder(c, HashOf(h, [x]))
    {
      hide Included, HashOf, Listed;
      var subsets := Subsets(faults, k);
      var i := 0;
      while i < |subsets|
        invariant 0 <= i <= |subsets|
        invariant forall j | 0 <= j < i :: NoneUnder(c, HashOf(h, subsets[j]))
      {
        var hash := Hash(h, subsets[i]);
        var found := BinarySearch(hashes, hash);
        if found {
          any := AnyIncluded(c, hash);
          if any {
            return true;
          }
        }
        i := i + 1;
      }
      if k == 1 {
        forall x | x in faults
          ensures NoneUnder(c, HashOf(h, [x]))
        {
          SingletonChosen(faults, x);
          var j :| 0 <= j < |subsets| && subsets[j] == [x];
        }
      }
      return false;
    }

    ghost predicate NoneUnder(c: Combination, hash: nat)
      reads this
    {
      hash in table ==> forall f | f in table[hash] :: !Included(c, f)
    }

    method AnyIncluded(c: Combination, hash: nat) returns (any: bool)
      requires Valid() && hash in table
      ensures any ==> exists f | f in known :: Included(c, f)
      ensures !any ==> NoneUnder(c, hash)
    {
      var row := table[hash];
      var i := 0;
      while i < |row|
        invariant 0 <= i <= |row| && forall j | 0 <= j < i :: !Included(c, row[j])
      {
        if row[i].Size() > c.Size() {
          forall j | i <= j < |row|
            ensures !Included(c, row[j])
          {
            IncludedIsSmaller(c, row[j]);
          }
          return false;
        }
        var includes := Includes(c, row[i]);
        if includes {
          assert row[i] in table[hash];
          return true;
        }
        i := i + 1;
      }
      return false;
    }

    lemma {:induction false} KnownHasHash(f: Combination)
      requires Valid() && f in known
      ensures hashes != []
    {
      SortedNonEmpty(f);
      var x := h.sort(Faults(f))[0];
      assert HashOf(h, [x]) in hashes;
    }

    /** An included combination shares a fault, hence the hash of a single fault, with the one that
        includes it. */
    lemma {:induction false} SharedFault(c: Combination, f: Combination) returns (x: FaultId)
      requires Valid() && f in known && Included(c, f)
      ensures x in h.sort(Faults(c)) && !NoneUnder(c, HashOf(h, [x]))
    {
      SortedNonEmpty(f);
      x := h.sort(Faults(f))[0];
      assert x in Faults(f);
      InOrderShorter(c.instructionFaults, f.instructionFaults);
      InOrderShorter(c.registerFaults, f.registerFaults);
      InFaults(f, x);
      InFaults(c, x);
      assert c.Size() > 0;
      SortedNonEmpty(c);
    }
  }

  lemma {:induction false} IncludedIsSmaller(c: Combination, f: Combination)
    ensures Included(c, f) ==> f.Size() <= c.Size()
  {
    if Included(c, f) {
      InOrderShorter(c.instructionFaults, f.instructionFaults);
      InOrderShorter(c.registerFaults, f.registerFaults);
    }
  }

  lemma {:induction false} InFaults(c: Combination, x: FaultId)
    ensures x in Faults(c) <==> if x.OfInstruction? then x.i in c.instructionFaults else x.r in c.registerFaults
  {
    var n := |c.instructionFaults|;
    if x.OfInstruction? && x.i in c.instructionFaults {
      var k :| 0 <= k < n && c.instructionFaults[k] == x.i;
      assert Faults(c)[k] == x;
    }
    if x.OfRegister? && x.r in c.registerFaults {
      var k :| 0 <= k < |c.registerFaults| && c.registerFaults[k] == x.r;
      assert Faults(c)[n + k] == x;
    }
  }
}
