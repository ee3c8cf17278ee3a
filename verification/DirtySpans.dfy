/** The bookkeeping of `Snapshot`: two address intervals that over-approximate the RAM bytes changed
    since the last backup, and what they guarantee about nested snapshots. */
module DirtySpans {
  import opened Processor

  /** Addresses lo..hi; empty exactly when the ends coincide. */
  datatype Span = Span(lo: Word, hi: Word)
  datatype Dirty = Dirty(low: Span, high: Span)

  const CLEAN := Dirty(Span(0, 0), Span(0, 0))

  function Extended(s: Span, address: Word, size: nat): Span {
    var end := (address + size) % WORD_LIMIT;
    if s.lo == s.hi then Span(address, end)
    else Span(if address < s.lo then address else s.lo, if end > s.hi then end else s.hi)
  }

  /** The after-write hook: stores below SP - 80 go to the low interval, the others to the high one. */
  function Marked(d: Dirty, address: Word, size: nat, sp: Word): Dirty {
    if address < (sp - 80) % WORD_LIMIT then d.(low := Extended(d.low, address, size))
    else d.(high := Extended(d.high, address, size))
  }

  predicate InSpan(s: Span, address: int) {
    s.lo != s.hi && s.lo <= address < s.hi
  }

  predicate Covers(d: Dirty, address: int) {
    InSpan(d.low, address) || InSpan(d.high, address)
  }

  predicate SpanInside(s: Span, offset: Word, size: nat) {
    s.lo == s.hi || offset <= s.lo < s.hi <= offset + size
  }

  predicate Inside(d: Dirty, offset: Word, size: nat) {
    SpanInside(d.low, offset, size) && SpanInside(d.high, offset, size)
  }

  ghost predicate Wider(d: Dirty, e: Dirty) {
    forall a | Covers(d, a) :: Covers(e, a)
  }

  /** Two RAM images differ at most where `d` says so. */
  ghost predicate Agree(x: seq<Byte>, y: seq<Byte>, d: Dirty, offset: Word) {
    |x| == |y| && forall k | 0 <= k < |x| && !Covers(d, offset + k) :: x[k] == y[k]
  }

  /** `after` accounts for every change from `x` to `y` on top of what `before` recorded. */
  ghost predicate Tracks(before: Dirty, after: Dirty, x: seq<Byte>, y: seq<Byte>, offset: Word) {
    Wider(before, after) && Agree(x, y, after, offset)
  }

  /** An interval extended by a store that does not wrap covers the store and what it covered before. */
  lemma {:induction false} ExtendedCovers(s: Span, address: Word, size: nat, offset: Word, ramSize: nat)
    requires offset + ramSize < WORD_LIMIT && SpanInside(s, offset, ramSize)
    requires offset <= address && address + size <= offset + ramSize && size > 0
    ensures var t := Extended(s, address, size);
      && SpanInside(t, offset, ramSize)
      && (forall a | InSpan(s, a) || address <= a < address + size :: InSpan(t, a))
  {
    assert (address + size) % WORD_LIMIT == address + size;
  }

  lemma {:induction false} MarkedTracks(m: Machine, d: Dirty, ram: seq<Byte>, w: Store)
    requires m.ramOffset + |ram| < WORD_LIMIT
    requires Inside(d, m.ramOffset, |ram|) && Accepted(m, |ram|, w)
    ensures var e := Marked(d, w.address, |w.bytes|, w.sp);
      Inside(e, m.ramOffset, |ram|) && Tracks(d, e, ram, Stored(m, ram, w), m.ramOffset)
  {
    hide Extended, SpanInside, InSpan;
    var n := |w.bytes|;
    ExtendedCovers(d.low, w.address, n, m.ramOffset, |ram|);
    ExtendedCovers(d.high, w.address, n, m.ramOffset, |ram|);
    var e := Marked(d, w.address, n, w.sp);
    assert forall a | w.address <= a < w.address + n :: Covers(e, a);
  }

  lemma {:induction false} TracksTrans(d: Dirty, e: Dirty, f: Dirty, x: seq<Byte>, y: seq<Byte>, z: seq<Byte>,
                                       offset: Word)
    requires Tracks(d, e, x, y, offset) && Tracks(e, f, y, z, offset)
    ensures Tracks(d, f, x, z, offset)
  {
  }

  /** A run of stores seen by one snapshot: what the hook has recorded at the end. */
  function MarkedAll(m: Machine, ramSize: nat, d: Dirty, ws: seq<Store>): Dirty
    decreases |ws|
  {
    if ws == [] then d
    else
      var next := if Accepted(m, ramSize, ws[0]) then Marked(d, ws[0].address, |ws[0].bytes|, ws[0].sp) else d;
      MarkedAll(m, ramSize, next, ws[1..])
  }

  lemma {:induction false} MarkedAllTracks(m: Machine, d: Dirty, ram: seq<Byte>, ws: seq<Store>)
    requires m.ramOffset + |ram| < WORD_LIMIT && Inside(d, m.ramOffset, |ram|)
    ensures var e := MarkedAll(m, |ram|, d, ws);
      Inside(e, m.ramOffset, |ram|) && Tracks(d, e, ram, StoredAll(m, ram, ws), m.ramOffset)
    decreases |ws|
  {
    if ws != [] {
      var d1 := if Accepted(m, |ram|, ws[0]) then Marked(d, ws[0].address, |ws[0].bytes|, ws[0].sp) else d;
      var ram1 := Stored(m, ram, ws[0]);
      if Accepted(m, |ram|, ws[0]) {
        MarkedTracks(m, d, ram, ws[0]);
      }
      MarkedAllTracks(m, d1, ram1, ws[1..]);
      TracksTrans(d, d1, MarkedAll(m, |ram|, d, ws), ram, ram1, StoredAll(m, ram, ws), m.ramOffset);
    }
  }

  ghost predicate NeverLosesAStore(m: Machine, ramSize: nat) {
    forall ram: seq<Byte>, ws: seq<Store> | |ram| == ramSize ::
      Agree(ram, StoredAll(m, ram, ws), MarkedAll(m, ramSize, CLEAN, ws), m.ramOffset)
  }

  // ---- What is recorded, exactly ----------------------------------------------------------------

  /** An accepted store on one side of eighty bytes below the stack pointer. */
  predicate OnSide(m: Machine, ramSize: nat, w: Store, low: bool) {
    Accepted(m, ramSize, w) && (w.address < (w.sp - 80) % WORD_LIMIT <==> low)
  }

  /** The smallest interval that contains the bytes of all stores on the side. */
  ghost predicate IsHull(m: Machine, ramSize: nat, s: Span, ws: seq<Store>, low: bool) {
    && (s.lo == s.hi <==> forall w | w in ws :: !OnSide(m, ramSize, w, low))
    && (forall w | w in ws && OnSide(m, ramSize, w, low) :: s.lo <= w.address && w.address + |w.bytes| <= s.hi)
    && (s.lo != s.hi ==>
        && (exists w :: w in ws && OnSide(m, ramSize, w, low) && w.address == s.lo)
        && (exists w :: w in ws && OnSide(m, ramSize, w, low) && w.address + |w.bytes| == s.hi))
  }

  lemma {:induction false} HullSame(m: Machine, ramSize: nat, s: Span, ws: seq<Store>, x: Store, low: bool)
    requires IsHull(m, ramSize, s, ws, low) && !OnSide(m, ramSize, x, low)
    ensures IsHull(m, ramSize, s, ws + [x], low)
  {
    hide OnSide;
    assert forall w :: w in ws + [x] <==> w in ws || w == x;
  }

  lemma {:induction false} HullExtended(m: Machine, ramSize: nat, s: Span, ws: seq<Store>, x: Store, low: bool)
    requires m.ramOffset + ramSize < WORD_LIMIT
    requires IsHull(m, ramSize, s, ws, low) && OnSide(m, ramSize, x, low)
    ensures IsHull(m, ramSize, Extended(s, x.address, |x.bytes|), ws + [x], low)
  {
    hide OnSide;
    assert forall w :: w in ws + [x] <==> w in ws || w == x;
    SideEnds(m, ramSize, x, low);
    assert x in ws + [x];
  }

  lemma {:induction false} SideEnds(m: Machine, ramSize: nat, x: Store, low: bool)
    requires m.ramOffset + ramSize < WORD_LIMIT && OnSide(m, ramSize, x, low)
    ensures 0 < |x.bytes| && x.address + |x.bytes| < WORD_LIMIT
  {
  }

  lemma {:induction false} HullMarked(m: Machine, ramSize: nat, d: Dirty, ws: seq<Store>, x: Store)
    requires m.ramOffset + ramSize < WORD_LIMIT
    requires IsHull(m, ramSize, d.low, ws, true) && IsHull(m, ramSize, d.high, ws, false)
    ensures var e := if Accepted(m, ramSize, x) then Marked(d, x.address, |x.bytes|, x.sp) else d;
      IsHull(m, ramSize, e.low, ws + [x], true) && IsHull(m, ramSize, e.high, ws + [x], false)
  {
    hide IsHull, Extended, Accepted;
    if OnSide(m, ramSize, x, true) {
      HullExtended(m, ramSize, d.low, ws, x, true);
    } else {
      HullSame(m, ramSize, d.low, ws, x, true);
    }
    if OnSide(m, ramSize, x, false) {
      HullExtended(m, ramSize, d.high, ws, x, false);
    } else {
      HullSame(m, ramSize, d.high, ws, x, false);
    }
  }

  lemma {:induction false} HullOn(m: Machine, ramSize: nat, d: Dirty, seen: seq<Store>, ws: seq<Store>)
    requires m.ramOffset + ramSize < WORD_LIMIT
    requires IsHull(m, ramSize, d.low, seen, true) && IsHull(m, ramSize, d.high, seen, false)
    ensures var e := MarkedAll(m, ramSize, d, ws);
      IsHull(m, ramSize, e.low, seen + ws, true) && IsHull(m, ramSize, e.high, seen + ws, false)
    decreases |ws|
  {
    hide IsHull, Marked, Accepted;
    if ws == [] {
      assert seen + ws == seen;
    } else {
      HullMarked(m, ramSize, d, seen, ws[0]);
      var next := if Accepted(m, ramSize, ws[0]) then Marked(d, ws[0].address, |ws[0].bytes|, ws[0].sp) else d;
      HullOn(m, ramSize, next, seen + [ws[0]], ws[1..]);
      assert seen + [ws[0]] + ws[1..] == seen + ws;
    }
  }

  /** After any stores the two intervals are the smallest ones that contain the bytes of the accepted stores more
      than eighty bytes below the stack pointer and of the others. */
  lemma {:induction false} MarkedIsHull(m: Machine, ramSize: nat, ws: seq<Store>)
    requires m.ramOffset + ramSize < WORD_LIMIT
    ensures var d := MarkedAll(m, ramSize, CLEAN, ws);
      IsHull(m, ramSize, d.low, ws, true) && IsHull(m, ramSize, d.high, ws, false)
  {
    hide OnSide, MarkedAll;
    HullOn(m, ramSize, CLEAN, [], ws);
    assert [] + ws == ws;
  }

  /** The intervals are exact only while RAM ends below the top of the address space: in RAM that ends
      at 2^32 two byte stores at the top already lose one of them. */
  lemma {:induction false} SpansSoundIffNoWrap(m: Machine, ramSize: nat)
    requires 2 <= ramSize && m.ramOffset + ramSize <= WORD_LIMIT
    ensures NeverLosesAStore(m, ramSize) <==> m.ramOffset + ramSize < WORD_LIMIT
  {
    if m.ramOffset + ramSize < WORD_LIMIT {
      forall ram: seq<Byte>, ws: seq<Store> | |ram| == ramSize
        ensures Agree(ram, StoredAll(m, ram, ws), MarkedAll(m, ramSize, CLEAN, ws), m.ramOffset)
      {
        MarkedAllTracks(m, CLEAN, ram, ws);
      }
    } else {
      var ram := seq(ramSize, _ => 0);
      var first, second := Store(WORD_LIMIT - 1, [1], 0), Store(WORD_LIMIT - 2, [1], 0);
      var ws := [first, second];
      assert ws[1..] == [second] && ws[1..][1..] == [];
      var ram1 := Stored(m, ram, first);
      var ram2 := Stored(m, ram1, second);
      assert StoredAll(m, ram, ws) == StoredAll(m, ram1, [second]) == StoredAll(m, ram2, []) == ram2;
      var d1 := Marked(CLEAN, first.address, 1, 0);
      var d2 := Marked(d1, second.address, 1, 0);
      assert MarkedAll(m, ramSize, CLEAN, ws) == MarkedAll(m, ramSize, d1, [second]);
      assert MarkedAll(m, ramSize, d1, [second]) == MarkedAll(m, ramSize, d2, []) == d2;
      assert ram[ramSize - 1] != ram2[ramSize - 1];
      assert !Covers(d2, m.ramOffset + (ramSize - 1));
      assert !Agree(ram, StoredAll(m, ram, ws), MarkedAll(m, ramSize, CLEAN, ws), m.ramOffset);
    }
  }

  // ---- Nested snapshots -------------------------------------------------------------------------

  /** The value of one snapshot object. */
  datatype Saved = Saved(cpu: Cpu, ram: seq<Byte>, initialized: bool, dirty: Dirty)

  /** Snapshots 0..level are usable: each knows every byte in which RAM, or the copy held by a deeper
      snapshot, may differ from its own copy.  Deeper snapshots may hold stale copies. */
  ghost predicate Nested(saved: seq<Saved>, level: int, ram: seq<Byte>, offset: Word) {
    && level < |saved|
    && (forall k | 0 <= k <= level :: saved[k].initialized && Agree(saved[k].ram, ram, saved[k].dirty, offset))
    && (forall j, k | 0 <= j < k <= level :: Agree(saved[j].ram, saved[k].ram, saved[j].dirty, offset))
  }

  ghost predicate AllInside(saved: seq<Saved>, offset: Word, size: nat) {
    forall k | 0 <= k < |saved| :: |saved[k].ram| == size && Inside(saved[k].dirty, offset, size)
  }

  /** What emulation does to the snapshots: only the intervals grow, and they track RAM. */
  ghost predicate Observed(before: seq<Saved>, after: seq<Saved>, x: seq<Byte>, y: seq<Byte>, offset: Word) {
    && |before| == |after|
    && forall k | 0 <= k < |before| ::
         && after[k] == before[k].(dirty := after[k].dirty)
         && Tracks(before[k].dirty, after[k].dirty, x, y, offset)
  }

  /** Saved copies below `level` are the same; their intervals have only grown. */
  ghost predicate OuterKept(before: seq<Saved>, after: seq<Saved>, level: int) {
    && |before| == |after|
    && forall k | 0 <= k < level && k < |before| ::
         after[k] == before[k].(dirty := after[k].dirty) && Wider(before[k].dirty, after[k].dirty)
  }

  lemma {:induction false} OuterKeptTrans(a: seq<Saved>, b: seq<Saved>, c: seq<Saved>, level: int)
    requires OuterKept(a, b, level) && OuterKept(b, c, level)
    ensures OuterKept(a, c, level)
  {
  }

  /** What work on a level leaves alone: its own copy and everything saved below it. */
  ghost predicate Kept(before: seq<Saved>, after: seq<Saved>, level: nat) {
    && OuterKept(before, after, level) && level < |before|
    && after[level].cpu == before[level].cpu && after[level].ram == before[level].ram
  }

  lemma {:induction false} KeptRefl(a: seq<Saved>, level: nat)
    requires level < |a|
    ensures Kept(a, a, level) && OuterKept(a, a, level)
  {
  }

  lemma {:induction false} OuterKeptIsKept(a: seq<Saved>, b: seq<Saved>, level: nat)
    requires OuterKept(a, b, level + 1) && level < |a|
    ensures Kept(a, b, level)
  {
  }

  lemma {:induction false} KeptTrans(a: seq<Saved>, b: seq<Saved>, c: seq<Saved>, level: nat)
    requires Kept(a, b, level) && Kept(b, c, level)
    ensures Kept(a, c, level)
  {
  }

  function BackedUp(saved: Saved, s: State): Saved {
    Saved(s.cpu, s.ram, true, CLEAN)
  }

  lemma {:induction false} ObservedRefl(a: seq<Saved>, x: seq<Byte>, offset: Word)
    ensures Observed(a, a, x, x, offset)
  {
  }

  lemma {:induction false} ObservedTrans(a: seq<Saved>, b: seq<Saved>, c: seq<Saved>, x: seq<Byte>, y: seq<Byte>,
                                         z: seq<Byte>, offset: Word)
    requires Observed(a, b, x, y, offset) && Observed(b, c, y, z, offset)
    ensures Observed(a, c, x, z, offset)
  {
    forall k | 0 <= k < |a|
      ensures c[k] == a[k].(dirty := c[k].dirty) && Tracks(a[k].dirty, c[k].dirty, x, z, offset)
    {
      TracksTrans(a[k].dirty, b[k].dirty, c[k].dirty, x, y, z, offset);
    }
  }

  /** Emulation keeps every usable snapshot usable. */
  lemma {:induction false} NestedObserved(before: seq<Saved>, after: seq<Saved>, level: int, x: seq<Byte>, y: seq<Byte>,
                                          offset: Word)
    requires Nested(before, level, x, offset) && Observed(before, after, x, y, offset)
    ensures Nested(after, level, y, offset) && OuterKept(before, after, level + 1)
  {
  }

  /** A complete backup on entering a level, and an incremental one later, leave the copy equal to RAM. */
  lemma {:induction false} NestedBackup(before: seq<Saved>, level: nat, s: State, offset: Word)
    requires Nested(before, level - 1, s.ram, offset) && level < |before|
    ensures var after := before[level := BackedUp(before[level], s)];
      Nested(after, level, s.ram, offset) && OuterKept(before, after, level)
  {
  }

  /** Restoring the innermost usable snapshot leaves the outer ones usable, although it does not run
      their hooks. */
  lemma {:induction false} NestedRestore(before: seq<Saved>, level: nat, ram: seq<Byte>, offset: Word)
    requires Nested(before, level, ram, offset)
    ensures var after := before[level := before[level].(dirty := CLEAN)];
      Nested(after, level, before[level].ram, offset) && OuterKept(before, after, level)
  {
  }

  /** Leaving inner levels: the outer snapshots stay usable. */
  lemma {:induction false} NestedShrink(saved: seq<Saved>, level: int, outer: int, ram: seq<Byte>, offset: Word)
    requires Nested(saved, level, ram, offset) && outer <= level
    ensures Nested(saved, outer, ram, offset)
  {
  }
}
