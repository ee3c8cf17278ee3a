/** Where lines, labels and code addresses of the source are found in the output of the pass.  Lines are
    inserted, so every address moves; labels of the source are numbered below the fresh ones, and a fresh
    one is written once.  Addresses that a program may hold lie between pairs, and a label settles on the
    same line as before. */
module ReplacementPlaces {
  import opened Thumb
  import opened SkipTolerance
  import opened ReplacementPass
  import opened ReplacementLayout
  import opened ReplacementTolerance

  // ----- Units and lines -----

  /** The first line of the j-th unit. */
  function Pos(units: seq<Unit>, j: nat): nat
    requires j <= |units|
  {
    |Flat(units[..j])|
  }

  lemma {:induction false} UnitAt(units: seq<Unit>, j: nat)
    requires j < |units|
    ensures var p, flat, roles := Pos(units, j), Flat(units), Roles(units);
      && p < |flat| && flat[p] == units[j].line
      && roles[p] == (if units[j].Twice? then Leading else Alone)
      && Pos(units, j + 1) == p + |Lines(units[j])|
      && flat[..p] == Flat(units[..j])
  {
    assert units == units[..j] + units[j..];
    assert units[..j + 1] == units[..j] + [units[j]];
    FlatSum(units[..j], units[j..]);
    FlatSum(units[..j], [units[j]]);
    assert Flat([units[j]]) == Lines(units[j]) by { FlatOne(units[j]); }
    assert |Roles(units[..j])| == |Flat(units[..j])|;
  }

  lemma {:induction false} FlatOne(u: Unit)
    ensures Flat([u]) == Lines(u)
  {
  }

  lemma {:induction false} PosEnd(units: seq<Unit>)
    ensures Pos(units, |units|) == |Flat(units)| && Pos(units, 0) == 0
  {
    assert units[..|units|] == units;
    assert units[..0] == [];
  }

  lemma {:induction false} FlatLabels(units: seq<Unit>, x: nat)
    requires GoodUnits(units) && Once(Label(x)) !in units
    ensures Label(x) !in Flat(units)
  {
    if units != [] {
      assert units[0] in units && GoodUnit(units[0]);
      FlatLabels(units[1..], x);
    }
  }

  lemma {:induction false} FirstIs(prog: seq<Line>, x: nat, p: nat)
    requires p < |prog| && prog[p] == Label(x) && Label(x) !in prog[..p]
    ensures Find(prog, x) == Some(p)
  {
    assert Find(prog, x).Some?;
    var i := Find(prog, x).value;
    assert forall k | 0 <= k < p :: prog[k] in prog[..p];
    assert forall k | 0 <= k < i :: prog[k] in prog[..i];
  }

  /** A label is found at the first unit that carries it. */
  lemma {:induction false} FindUnit(units: seq<Unit>, j: nat, x: nat)
    requires GoodUnits(units) && j < |units| && units[j] == Once(Label(x)) && Once(Label(x)) !in units[..j]
    ensures Find(Flat(units), x) == Some(Pos(units, j))
  {
    UnitAt(units, j);
    FlatLabels(units[..j], x);
    var p, flat := Pos(units, j), Flat(units);
    assert flat[p] == Label(x);
    FirstIs(flat, x, p);
  }

  // ----- The units of a source line -----

  /** The unit index of a source line. */
  function From(source: seq<Line>, temp: Spare, k: nat): nat
    requires k <= |source|
  {
    |Made(source, temp, k)|
  }

  function At(source: seq<Line>, temp: Spare, k: nat): nat
    requires k <= |source|
  {
    |Flat(Made(source, temp, k))|
  }

  lemma {:induction false} MadePrefix(source: seq<Line>, temp: Spare, k: nat, m: nat)
    requires k <= m <= |source|
    ensures From(source, temp, k) <= From(source, temp, m)
    ensures Made(source, temp, m)[..From(source, temp, k)] == Made(source, temp, k)
    decreases m - k
  {
    if k < m {
      MadePrefix(source, temp, k, m - 1);
    }
  }

  /** The units from that of line k on start with what line k becomes. */
  lemma {:induction false} LineUnits(source: seq<Line>, temp: Spare, k: nat)
    requires Eligible(source, temp) && k < |source| && FitsAt(source, temp, k)
    ensures
      var units, j := Made(source, temp, |source|), From(source, temp, k);
      var made := Emit(ScanAt(source, temp, k), source[k], temp);
      && j + |made| <= |units| && units[j..j + |made|] == made
      && From(source, temp, k + 1) == j + |made|
      && Pos(units, j) == At(source, temp, k)
  {
    hide Emit, Fits, Flat;
    MadePrefix(source, temp, k, |source|);
    MadePrefix(source, temp, k + 1, |source|);
  }

  lemma {:induction false} LinePlaces(source: seq<Line>, temp: Spare, k: nat)
    requires k <= |source|
    ensures var units := Made(source, temp, |source|);
      From(source, temp, k) <= |units| && Pos(units, From(source, temp, k)) == At(source, temp, k)
  {
    MadePrefix(source, temp, k, |source|);
  }

  // ----- Labels -----

  /** A label among the units of a line: that of the line, a return label or one closing a block. */
  lemma {:induction false} EmitLabels(st: Scan, line: Line, temp: Spare, x: nat)
    requires Fits(st, line) && Once(Label(x)) in Emit(st, line, temp)
    requires st.block.Some? ==> !st.ignore
    ensures line == Label(x) || (x == st.n && After(st, line, temp).n == st.n + 1) ||
      (st.block.Some? && var b := st.block.value;
        (b.thens == 1 && x == b.l) || (b.thens == 0 && b.elses == 1 && x == b.l + 1))
  {
    hide ExpandOp, Known;
    if line.Op? && !st.ignore && Once(Label(x)) in ExpandOp(line.ins, temp, st.n) {
      OpLabels(line.ins, temp, st.n, x);
    }
  }

  lemma {:induction false} OpLabels(ins: Instruction, temp: Spare, n: nat, x: nat)
    requires Once(Label(x)) in ExpandOp(ins, temp, n)
    ensures x == n && ins.Call?
  {
    hide ExpandKnown, ExpandLoadMany, ExpandStoreMany;
    KnownLabels(ins, temp, x);
    if ins.LoadMany? || ins.StoreMany? || ins.Push? || ins.Pop? {
      ManyLabels(true, SP, true, ins.list, false, temp, x);
      ManyLabels(false, SP, true, ins.list, (ins.LoadMany? || ins.Pop?) && ins.pc, temp, x);
      if ins.LoadMany? || ins.StoreMany? {
        ManyLabels(ins.db, ins.base, ins.wb, ins.list, ins.LoadMany? && ins.pc, temp, x);
      }
    }
  }

  lemma {:induction false} KnownLabels(ins: Instruction, temp: Spare, x: nat)
    ensures Once(Label(x)) !in ExpandKnown(ins, temp)
  {
    hide Known, MentionsCarry, WithFirst;
  }

  lemma {:induction false} ManyLabels(db: bool, base: Reg, wb: bool, list: seq<Reg>, pc: bool, temp: Spare, x: nat)
    ensures Once(Label(x)) !in ExpandLoadMany(db, base, wb, list, pc, temp)
    ensures Once(Label(x)) !in ExpandStoreMany(db, base, wb, list, temp)
  {
  }

  lemma {:induction false} ScanNumbers(source: seq<Line>, temp: Spare, k: nat)
    requires Assembled(source, temp) && k <= |source|
    ensures var st := ScanAt(source, temp, k);
      FIRST_LABEL <= st.n && (st.block.Some? ==> FIRST_LABEL <= st.block.value.l && st.block.value.l + 1 < st.n)
  {
    if k > 0 {
      ScanNumbers(source, temp, k - 1);
      assert FitsAt(source, temp, k - 1);
    }
  }

  /** A fresh label still to be written for the open block. */
  predicate Awaited(st: Scan, x: nat) {
    st.block.Some? && (x == st.block.value.l + 1 || (st.block.value.thens > 0 && x == st.block.value.l))
  }

  /** The labels written so far: those of the source so far, and fresh ones not awaited. */
  lemma {:induction false} MadeLabels(source: seq<Line>, temp: Spare, k: nat, x: nat)
    requires Eligible(source, temp) && k <= |source| && Once(Label(x)) in Made(source, temp, k)
    ensures if x < FIRST_LABEL then Label(x) in source[..k]
            else x < ScanAt(source, temp, k).n && !Awaited(ScanAt(source, temp, k), x)
  {
    hide Emit, Fits, Labels;
    if k > 0 {
      assert FitsAt(source, temp, k - 1) && EligibleAt(source, temp, k - 1);
      ScanNumbers(source, temp, k - 1);
      ScanState(source, temp, k - 1);
      assert source[..k] == source[..k - 1] + [source[k - 1]];
      var st := ScanAt(source, temp, k - 1);
      if Once(Label(x)) in Made(source, temp, k - 1) {
        MadeLabels(source, temp, k - 1, x);
      } else {
        EmitLabels(st, source[k - 1], temp, x);
      }
      NotAwaited(st, source[k - 1], temp, x);
    }
  }

  /** A line does not make the pass await a label again, nor one numbered before. */
  lemma {:induction false} NotAwaited(st: Scan, line: Line, temp: Spare, x: nat)
    requires Fits(st, line)
    requires st.block.Some? ==> st.block.value.l + 1 < st.n
    ensures var st' := After(st, line, temp);
      && st'.n >= st.n
      && (x < st.n && !Awaited(st, x) ==> !Awaited(st', x))
      && (st.block.Some? ==> var b := st.block.value;
           (b.thens == 1 && x == b.l) || (b.thens == 0 && b.elses == 1 && x == b.l + 1) ==> !Awaited(st', x))
      && (x == st.n && st'.n == st.n + 1 ==> !Awaited(st', x))
  {
  }

  // ----- Finding labels -----

  lemma {:induction false} ClosedAtLabel(source: seq<Line>, temp: Spare, k: nat)
    requires Eligible(source, temp) && k < |source| && source[k].Label?
    ensures ScanAt(source, temp, k).block == None && ScanAt(source, temp, k + 1).block == None
    ensures source[k].l < FIRST_LABEL
    ensures FitsAt(source, temp, k) && Emit(ScanAt(source, temp, k), source[k], temp) == [Once(source[k])]
  {
    assert FitsAt(source, temp, k) && EligibleAt(source, temp, k);
  }

  /** A unit of a line, found among all units, with nothing but earlier units before it. */
  lemma {:induction false} LineUnit(source: seq<Line>, temp: Spare, k: nat, i: nat)
    requires Eligible(source, temp) && k < |source| && FitsAt(source, temp, k)
    requires i < |Emit(ScanAt(source, temp, k), source[k], temp)|
    ensures
      var units, j := Made(source, temp, |source|), From(source, temp, k);
      var made := Emit(ScanAt(source, temp, k), source[k], temp);
      j + i < |units| && units[j + i] == made[i] && units[..j + i] == Made(source, temp, k) + made[..i]
  {
    hide Emit, Fits, Made, ScanAt, Eligible;
    LineUnits(source, temp, k);
    MadePrefix(source, temp, k, |source|);
    PartOf(Made(source, temp, |source|), From(source, temp, k), Emit(ScanAt(source, temp, k), source[k], temp), i);
  }

  lemma {:induction false} PartOf(units: seq<Unit>, j: nat, made: seq<Unit>, i: nat)
    requires j + |made| <= |units| && units[j..j + |made|] == made && i < |made|
    ensures units[j + i] == made[i] && units[..j + i] == units[..j] + made[..i]
  {
    assert units[j..j + |made|][i] == units[j + i];
    assert units[..j + i] == units[..j] + units[j..j + |made|][..i];
  }

  /** A label of the source is found where its line went. */
  lemma {:induction false} FindSource(source: seq<Line>, temp: Spare, l: nat)
    requires Eligible(source, temp) && Find(source, l).Some?
    ensures Find(Output(source, temp), l) == Some(At(source, temp, Find(source, l).value))
  {
    hide Emit, Fits;
    var k := Find(source, l).value;
    ClosedAtLabel(source, temp, k);
    LineUnit(source, temp, k, 0);
    LinePlaces(source, temp, k);
    MadeGood(source, temp, |source|);
    if Once(Label(l)) in Made(source, temp, k) {
      MadeLabels(source, temp, k, l);
    }
    var units, j := Made(source, temp, |source|), From(source, temp, k);
    assert units[..j] == Made(source, temp, k);
    FindUnit(units, j, l);
  }

  /** A fresh label among the units of a line, not written before, is found there. */
  lemma {:induction false} FindFresh(source: seq<Line>, temp: Spare, k: nat, i: nat, x: nat)
    requires Eligible(source, temp) && k < |source| && FitsAt(source, temp, k)
    requires var made := Emit(ScanAt(source, temp, k), source[k], temp);
      i < |made| && made[i] == Once(Label(x)) && Once(Label(x)) !in made[..i]
    requires x >= FIRST_LABEL && (x >= ScanAt(source, temp, k).n || Awaited(ScanAt(source, temp, k), x))
    ensures From(source, temp, k) + i < |Made(source, temp, |source|)|
    ensures Find(Output(source, temp), x) == Some(Pos(Made(source, temp, |source|), From(source, temp, k) + i))
  {
    hide Emit, Fits, Awaited;
    LineUnit(source, temp, k, i);
    MadeGood(source, temp, |source|);
    if Once(Label(x)) in Made(source, temp, k) {
      MadeLabels(source, temp, k, x);
    }
    FindUnit(Made(source, temp, |source|), From(source, temp, k) + i, x);
  }

  // ----- Addresses -----

  /** The address in the output of each source line. */
  function Places(source: seq<Line>, temp: Spare): (r: seq<nat>)
    ensures |r| == |source| + 1
  {
    seq(|source| + 1, k requires 0 <= k <= |source| => Settle(Output(source, temp), At(source, temp, k)))
  }

  /** The lines a program may jump to: those outside IT blocks. */
  function Landings(source: seq<Line>, temp: Spare): set<nat> {
    set k: nat | 0 <= k <= |source| && ScanAt(source, temp, k).block == None
  }

  /** The address of a settled line is the same seen from the labels before it. */
  lemma {:induction false} SettledPlace(source: seq<Line>, temp: Spare, k: nat)
    requires Eligible(source, temp) && k in Landings(source, temp)
    ensures Settle(source, k) in Landings(source, temp)
    ensures Places(source, temp)[Settle(source, k)] == Settle(Output(source, temp), At(source, temp, k))
    decreases |source| - k
  {
    hide Emit, Fits, Eligible, Output, Made, At;
    if k < |source| && source[k].Label? {
      ClosedAtLabel(source, temp, k);
      LabelMoves(source, temp, k);
      SettledPlace(source, temp, k + 1);
    }
  }

  lemma {:induction false} LabelMoves(source: seq<Line>, temp: Spare, k: nat)
    requires Eligible(source, temp) && k < |source| && source[k].Label?
    ensures At(source, temp, k) < |Output(source, temp)| && Output(source, temp)[At(source, temp, k)] == source[k]
    ensures At(source, temp, k + 1) == At(source, temp, k) + 1
  {
    hide Emit, Fits, ScanAt, Made, Eligible;
    ClosedAtLabel(source, temp, k);
    LineUnit(source, temp, k, 0);
    LinePlaces(source, temp, k);
    LinePlaces(source, temp, k + 1);
    LineUnits(source, temp, k);
    UnitAt(Made(source, temp, |source|), From(source, temp, k));
  }

  lemma {:induction false} UnitIsEntry(units: seq<Unit>, j: nat)
    requires j <= |units|
    ensures Pos(units, j) in Entries(Roles(units))
  {
    PosEnd(units);
    if j < |units| {
      UnitAt(units, j);
    }
  }

  /** Addresses of landings lie between pairs. */
  lemma {:induction false} PlacesAreEntries(source: seq<Line>, temp: Spare, k: nat)
    requires Eligible(source, temp) && k <= |source|
    ensures At(source, temp, k) in Entries(OutputRoles(source, temp))
    ensures Places(source, temp)[k] in Entries(OutputRoles(source, temp))
  {
    hide Eligible, Paired, Made, ScanAt, Settle;
    LinePlaces(source, temp, k);
    UnitIsEntry(Made(source, temp, |source|), From(source, temp, k));
    OutputPaired(source, temp);
    SettledEntry(Output(source, temp), OutputRoles(source, temp), At(source, temp, k));
  }
}
