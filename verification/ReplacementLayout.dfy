/** Where the pass puts what: its output as the concatenation of what each source line becomes.  The pass
    itself rewrites a file in which earlier lines are done and later ones stripped of their conditions; here
    the same output is described by one scan over the source that knows the ignored sections, the open IT
    block and the next fresh label. */
module ReplacementLayout {
  import opened Thumb
  import opened ReplacementPass

  /** What the pass knows before a line: ignored section, next fresh label, open IT block. */
  datatype Scan = Scan(ignore: bool, n: nat, block: Option<Block>)

  /** The condition of the next line of a block. */
  function Expected(b: Block): Condition {
    if b.thens > 0 then b.test else Inverse(b.test)
  }

  /** The line is one an assembler accepts here: a block covers instructions with the conditions its IT
      announces, all its `then` lines first, and outside blocks only branches are conditional. */
  predicate Fits(st: Scan, line: Line) {
    match st.block
    case Some(b) => b.thens + b.elses > 0 && line.Op? && line.cond == Some(Expected(b))
    case None => st.ignore || ((line.It? ==> line.thens > 0) && (line.Op? ==> line.cond.None? || line.ins.Branch?))
  }

  /** What follows the line in the output: the jump over the other branch and the labels of the block. */
  function Tail(b: Block): seq<Unit> {
    if b.thens == 1 then
      if b.elses > 0 then [Twice(Do(Branch(b.l + 1))), Once(Label(b.l))] else [Once(Label(b.l))]
    else if b.thens == 0 && b.elses == 1 then [Once(Label(b.l + 1))]
    else []
  }

  function NextBlock(b: Block): Option<Block> {
    if b.thens > 0 then
      if b.thens == 1 && b.elses == 0 then None else Some(b.(thens := b.thens - 1))
    else if b.elses <= 1 then None else Some(b.(elses := b.elses - 1))
  }

  function Emit(st: Scan, line: Line, temp: Spare): seq<Unit>
    requires Fits(st, line)
  {
    match st.block
    case Some(b) => ExpandOp(line.ins, temp, st.n) + Tail(b)
    case None =>
      if line.It? && !st.ignore then [Once(Op(Some(Inverse(line.test)), Branch(st.n)))]
      else Expand(line, temp, st.ignore, st.n)
  }

  function After(st: Scan, line: Line, temp: Spare): Scan
    requires Fits(st, line)
  {
    match st.block
    case Some(b) => Scan(st.ignore, st.n + Labels(Do(line.ins), temp, st.ignore), NextBlock(b))
    case None =>
      if line.It? && !st.ignore then Scan(false, st.n + 2, Some(Block(line.thens, line.elses, line.test, st.n)))
      else Scan(Ignoring(line, st.ignore), st.n + Labels(line, temp, st.ignore), None)
  }

  function ScanAt(source: seq<Line>, temp: Spare, k: nat): Scan
    requires k <= |source|
  {
    if k == 0 then Scan(false, FIRST_LABEL, None)
    else
      var st := ScanAt(source, temp, k - 1);
      if Fits(st, source[k - 1]) then After(st, source[k - 1], temp) else st
  }

  function Made(source: seq<Line>, temp: Spare, k: nat): seq<Unit>
    requires k <= |source|
  {
    if k == 0 then []
    else
      var st := ScanAt(source, temp, k - 1);
      Made(source, temp, k - 1) + (if Fits(st, source[k - 1]) then Emit(st, source[k - 1], temp) else [])
  }

  predicate FitsAt(source: seq<Line>, temp: Spare, k: nat)
    requires k < |source|
  {
    Fits(ScanAt(source, temp, k), source[k])
  }

  /** The source is well formed: every line fits, and no block is left open. */
  predicate Assembled(source: seq<Line>, temp: Spare) {
    (forall k | 0 <= k < |source| :: FitsAt(source, temp, k)) && ScanAt(source, temp, |source|).block == None
  }

  // ----- The rewriting of the rest of the file -----

  /** The lines still to do, as the pass has left them. */
  function Pending(st: Scan, rest: seq<Line>): seq<Line>
    requires st.block.Some? ==> st.block.value.thens + st.block.value.elses <= |rest|
  {
    match st.block
    case None => rest
    case Some(b) =>
      if b.thens > 0 then Unblocked(b, rest)
      else StripAll(rest[..b.elses], Inverse(b.test)) + AfterElses(b) + rest[b.elses..]
  }

  lemma {:induction false} ScanState(source: seq<Line>, temp: Spare, k: nat)
    requires k <= |source|
    ensures var st := ScanAt(source, temp, k);
      st.block.Some? ==> !st.ignore && st.block.value.thens + st.block.value.elses > 0
  {
    if k > 0 {
      ScanState(source, temp, k - 1);
    }
  }

  /** An open block ends before the file does. */
  lemma {:induction false} BlockEnds(source: seq<Line>, temp: Spare, k: nat)
    requires Assembled(source, temp) && k <= |source|
    ensures var b := ScanAt(source, temp, k).block; b.Some? ==> k + b.value.thens + b.value.elses <= |source|
    decreases |source| - k
  {
    if k < |source| {
      BlockEnds(source, temp, k + 1);
      assert FitsAt(source, temp, k);
    }
  }

  lemma {:induction false} IgnoredIt(line: Line, temp: Spare, n: nat)
    requires line.It?
    ensures Expand(line, temp, true, n) == [Once(line)] && Ignoring(line, true) && Labels(line, temp, true) == 0
  {
  }

  lemma {:induction false} CompileLine(line: Line, rest: seq<Line>, temp: Spare, ignore: bool, n: nat)
    requires line.It? ==> ignore
    ensures Compile([line] + rest, temp, ignore, n) ==
      Prepend(Expand(line, temp, ignore, n),
              Compile(rest, temp, Ignoring(line, ignore), n + Labels(line, temp, ignore)))
  {
    hide Expand, Labels, Ignoring;
    assert ([line] + rest)[1..] == rest;
    if line.It? {
      IgnoredIt(line, temp, n);
    }
  }

  lemma {:induction false} CompileLabel(l: nat, rest: seq<Line>, temp: Spare, n: nat)
    ensures Compile([Label(l)] + rest, temp, false, n) == Prepend([Once(Label(l))], Compile(rest, temp, false, n))
  {
    hide Compile;
    CompileLine(Label(l), rest, temp, false, n);
  }

  lemma {:induction false} CompileJump(l: nat, back: nat, rest: seq<Line>, temp: Spare, n: nat)
    ensures Compile([Do(Branch(l)), Label(back)] + rest, temp, false, n) ==
      Prepend([Twice(Do(Branch(l))), Once(Label(back))], Compile(rest, temp, false, n))
  {
    hide Compile, Expand;
    JumpExpands(l, temp, n);
    assert [Do(Branch(l)), Label(back)] + rest == [Do(Branch(l))] + ([Label(back)] + rest);
    CompileLine(Do(Branch(l)), [Label(back)] + rest, temp, false, n);
    CompileLabel(back, rest, temp, n);
    PrependTwice([Twice(Do(Branch(l)))], [Once(Label(back))], Compile(rest, temp, false, n));
    assert [Twice(Do(Branch(l)))] + [Once(Label(back))] == [Twice(Do(Branch(l))), Once(Label(back))];
  }

  lemma {:induction false} JumpExpands(l: nat, temp: Spare, n: nat)
    ensures Expand(Do(Branch(l)), temp, false, n) == [Twice(Do(Branch(l)))]
  {
  }

  function TailLines(b: Block): seq<Line> {
    if b.thens == 1 then AfterThens(b) else if b.thens == 0 && b.elses == 1 then AfterElses(b) else []
  }

  lemma {:induction false} CompileTail(b: Block, rest: seq<Line>, temp: Spare, n: nat)
    ensures Compile(TailLines(b) + rest, temp, false, n) == Prepend(Tail(b), Compile(rest, temp, false, n))
  {
    hide Compile;
    if TailLines(b) == [] {
      assert TailLines(b) + rest == rest;
      NoPrepend(Compile(rest, temp, false, n));
    } else if b.thens == 1 && b.elses > 0 {
      CompileJump(b.l + 1, b.l, rest, temp, n);
    } else if b.thens == 1 {
      CompileLabel(b.l, rest, temp, n);
    } else {
      CompileLabel(b.l + 1, rest, temp, n);
    }
  }

  lemma {:induction false} NoPrepend(r: Option<seq<Unit>>)
    ensures Prepend([], r) == r
  {
    if r.Some? {
      assert [] + r.value == r.value;
    }
  }

  lemma {:induction false} StripCons(rest: seq<Line>, n: nat, c: Condition)
    requires 0 < n <= |rest|
    ensures StripAll(rest[..n], c) == [Strip(rest[0], c)] + StripAll(rest[1..][..n - 1], c)
  {
  }

  lemma {:induction false} StripNone(rest: seq<Line>, c: Condition)
    ensures StripAll(rest[..0], c) == []
  {
  }

  /** Inside a block, the rest of the file starts with the stripped line and what closes a branch. */
  lemma {:induction false} PendingThen(b: Block, rest: seq<Line>)
    requires 0 < b.thens && b.thens + b.elses <= |rest|
    ensures
      var next :=
        if b.thens == 1 && b.elses == 0 then rest[1..] else Pending(Scan(false, 0, NextBlock(b)), rest[1..]);
      Unblocked(b, rest) == [Strip(rest[0], b.test)] + (TailLines(b) + next)
  {
    hide StripAll, Unblocked;
    StripCons(rest, b.thens, b.test);
    if b.thens > 1 {
      MoreThens(b, rest);
    } else {
      LastThen(b, rest);
    }
  }

  lemma {:induction false} EmptyFront(a: seq<Line>)
    ensures [] + a == a
  {
  }

  lemma {:induction false} SameLabels(b: Block)
    requires b.thens > 1
    ensures AfterThens(b.(thens := b.thens - 1)) == AfterThens(b)
    ensures AfterElses(b.(thens := b.thens - 1)) == AfterElses(b) && TailLines(b) == []
  {
  }

  lemma {:induction false} SlicesBehind(rest: seq<Line>, t: nat, e: nat)
    requires 0 < t && t + e <= |rest|
    ensures rest[1..][t - 1..t - 1 + e] == rest[t..t + e] && rest[1..][t - 1 + e..] == rest[t + e..]
  {
  }

  lemma {:induction false} MoreThens(b: Block, rest: seq<Line>)
    requires 1 < b.thens && b.thens + b.elses <= |rest|
    requires StripAll(rest[..b.thens], b.test) == [Strip(rest[0], b.test)] + StripAll(rest[1..][..b.thens - 1], b.test)
    ensures Unblocked(b, rest) ==
      [Strip(rest[0], b.test)] + (TailLines(b) + Unblocked(b.(thens := b.thens - 1), rest[1..]))
  {
    hide StripAll, AfterThens, AfterElses, Strip, TailLines;
    var t, e := b.thens, b.elses;
    SlicesBehind(rest, t, e);
    var first, thens := [Strip(rest[0], b.test)], StripAll(rest[1..][..t - 1], b.test);
    var elses := StripAll(rest[t..t + e], Inverse(b.test));
    SameLabels(b);
    EmptyFront(Unblocked(b.(thens := t - 1), rest[1..]));
    Together(first, thens, AfterThens(b), elses, AfterElses(b), rest[t + e..]);
  }

  lemma {:induction false} LastThen(b: Block, rest: seq<Line>)
    requires 1 == b.thens && b.thens + b.elses <= |rest|
    requires StripAll(rest[..1], b.test) == [Strip(rest[0], b.test)] + StripAll(rest[1..][..0], b.test)
    ensures var next := if b.elses == 0 then rest[1..]
        else StripAll(rest[1..][..b.elses], Inverse(b.test)) + AfterElses(b) + rest[1..][b.elses..];
      Unblocked(b, rest) == [Strip(rest[0], b.test)] + (AfterThens(b) + next)
  {
    hide StripAll, AfterThens;
    var e := b.elses;
    StripNone(rest[1..], b.test);
    assert rest[1..][..e] == rest[1..1 + e] && rest[1..][e..] == rest[1 + e..];
    if e == 0 {
      assert rest[1..1] == rest[..0];
      StripNone(rest, Inverse(b.test));
    }
  }

  lemma {:induction false} SameAfter(b: Block)
    requires b.thens == 0 && b.elses > 1
    ensures NextBlock(b) == Some(b.(elses := b.elses - 1)) && AfterElses(b.(elses := b.elses - 1)) == AfterElses(b)
  {
  }

  /** What is pending behind one of several last lines. */
  lemma {:induction false} PendingMore(b: Block, rest: seq<Line>)
    requires b.thens == 0 && 1 < b.elses <= |rest|
    ensures NextBlock(b).Some? && TailLines(b) == []
    ensures Pending(Scan(false, 0, NextBlock(b)), rest[1..]) ==
      StripAll(rest[1..][..b.elses - 1], Inverse(b.test)) + AfterElses(b) + rest[b.elses..]
  {
    hide StripAll, AfterElses, Unblocked;
    SameAfter(b);
    SlicesBehind(rest, b.elses, 0);
  }

  lemma {:induction false} LastTail(b: Block)
    requires b.thens == 0 && b.elses == 1
    ensures TailLines(b) == AfterElses(b)
  {
  }

  /** The same lines with the first one in front, or with nothing behind it. */
  lemma {:induction false} FrontFour(first: seq<Line>, a: seq<Line>, b: seq<Line>, c: seq<Line>)
    ensures first + a + b + c == first + ([] + (a + b + c))
    ensures a == [] ==> first + a + b + c == first + (b + c)
  {
    Associates(first, a, b);
    Associates(first, a + b, c);
    EmptyFront(a + b + c);
    EmptyFront(b);
  }

  lemma {:induction false} PendingElse(b: Block, rest: seq<Line>)
    requires b.thens == 0 && 0 < b.elses <= |rest|
    ensures var inverse := Inverse(b.test);
      var next := if b.elses == 1 then rest[1..] else Pending(Scan(false, 0, NextBlock(b)), rest[1..]);
      StripAll(rest[..b.elses], inverse) + AfterElses(b) + rest[b.elses..] ==
      [Strip(rest[0], inverse)] + (TailLines(b) + next)
  {
    hide StripAll, AfterElses, Strip, Pending, TailLines, NextBlock;
    var inverse := Inverse(b.test);
    var first, more := [Strip(rest[0], inverse)], StripAll(rest[1..][..b.elses - 1], inverse);
    StripCons(rest, b.elses, inverse);
    FrontFour(first, more, AfterElses(b), rest[b.elses..]);
    if b.elses == 1 {
      StripNone(rest[1..], inverse);
      LastTail(b);
    } else {
      PendingMore(b, rest);
    }
  }

  lemma {:induction false} PendingStep(st: Scan, rest: seq<Line>, temp: Spare)
    requires rest != [] && st.block.Some? && Fits(st, rest[0])
    requires st.block.value.thens + st.block.value.elses <= |rest|
    ensures var b := st.block.value;
      Pending(st, rest) == [Do(rest[0].ins)] + (TailLines(b) + Pending(After(st, rest[0], temp), rest[1..]))
  {
    hide StripAll, Unblocked, TailLines, Labels;
    var b := st.block.value;
    if b.thens > 0 {
      PendingThen(b, rest);
    } else {
      PendingElse(b, rest);
    }
  }

  /** The pass so far has made what the source lines so far become. */
  lemma {:induction false} CompileSoFar(source: seq<Line>, temp: Spare, k: nat)
    requires Assembled(source, temp) && k <= |source|
    ensures var st := ScanAt(source, temp, k);
      (st.block.Some? ==> st.block.value.thens + st.block.value.elses <= |source| - k) &&
      Compile(source, temp, false, FIRST_LABEL) ==
      Prepend(Made(source, temp, k), Compile(Pending(st, source[k..]), temp, st.ignore, st.n))
  {
    hide Compile, Pending, Emit, After, Fits;
    BlockEnds(source, temp, k);
    if k == 0 {
      NothingMade(source, temp);
    } else {
      BlockEnds(source, temp, k - 1);
      CompileSoFar(source, temp, k - 1);
      assert FitsAt(source, temp, k - 1);
      var st := ScanAt(source, temp, k - 1);
      assert source[k - 1..][1..] == source[k..];
      PassStep(source, temp, k - 1);
      var rest := Compile(Pending(ScanAt(source, temp, k), source[k..]), temp, ScanAt(source, temp, k).ignore,
                          ScanAt(source, temp, k).n);
      PrependTwice(Made(source, temp, k - 1), Emit(st, source[k - 1], temp), rest);
    }
  }

  lemma {:induction false} NothingMade(source: seq<Line>, temp: Spare)
    ensures Pending(ScanAt(source, temp, 0), source[0..]) == source
    ensures Prepend(Made(source, temp, 0), Compile(source, temp, false, FIRST_LABEL)) ==
      Compile(source, temp, false, FIRST_LABEL)
  {
    hide Compile;
    NoPrepend(Compile(source, temp, false, FIRST_LABEL));
  }

  /** One source line of the rest of the file. */
  lemma {:induction false} PassStep(source: seq<Line>, temp: Spare, k: nat)
    requires Assembled(source, temp) && k < |source|
    requires FitsAt(source, temp, k)
    requires var b := ScanAt(source, temp, k).block; b.Some? ==> k + b.value.thens + b.value.elses <= |source|
    requires var b := ScanAt(source, temp, k + 1).block; b.Some? ==> k + 1 + b.value.thens + b.value.elses <= |source|
    ensures var st, st' := ScanAt(source, temp, k), ScanAt(source, temp, k + 1);
      Compile(Pending(st, source[k..]), temp, st.ignore, st.n) ==
      Prepend(Emit(st, source[k], temp), Compile(Pending(st', source[k + 1..]), temp, st'.ignore, st'.n))
  {
    hide Compile, StripAll, Unblocked, Expand, ExpandOp, Tail;
    var st, st' := ScanAt(source, temp, k), ScanAt(source, temp, k + 1);
    ScanState(source, temp, k);
    assert source[k..][1..] == source[k + 1..];
    match st.block
    case Some(b) => BlockStep(st, source[k..], temp);
    case None =>
      var line := source[k];
      assert source[k..] == [line] + source[k + 1..];
      if line.It? && !st.ignore {
        ItStep(st, source[k..], temp);
      } else {
        CompileLine(line, source[k + 1..], temp, st.ignore, st.n);
      }
  }

  lemma {:induction false} BlockStep(st: Scan, rest: seq<Line>, temp: Spare)
    requires rest != [] && st.block.Some? && !st.ignore && Fits(st, rest[0])
    requires st.block.value.thens + st.block.value.elses <= |rest|
    ensures var st' := After(st, rest[0], temp);
      Compile(Pending(st, rest), temp, st.ignore, st.n) ==
      Prepend(Emit(st, rest[0], temp), Compile(Pending(st', rest[1..]), temp, st'.ignore, st'.n))
  {
    hide Compile, Pending, ExpandOp, TailLines, Tail;
    var b, st' := st.block.value, After(st, rest[0], temp);
    var line := Do(rest[0].ins);
    var later := Pending(st', rest[1..]);
    PendingStep(st, rest, temp);
    CompileLine(line, TailLines(b) + later, temp, false, st.n);
    CompileTail(b, later, temp, st'.n);
    PrependTwice(ExpandOp(rest[0].ins, temp, st.n), Tail(b), Compile(later, temp, false, st'.n));
  }

  lemma {:induction false} ItStep(st: Scan, rest: seq<Line>, temp: Spare)
    requires rest != [] && st.block.None? && !st.ignore && rest[0].It? && rest[0].thens > 0
    requires rest[0].thens + rest[0].elses < |rest|
    ensures var st' := After(st, rest[0], temp);
      Compile(rest, temp, st.ignore, st.n) ==
      Prepend(Emit(st, rest[0], temp), Compile(Pending(st', rest[1..]), temp, st'.ignore, st'.n))
  {
    hide Unblocked;
  }

  /** The pass succeeds on a well formed source, and its output is what the lines become in turn. */
  lemma {:induction false} CompiledIsMade(source: seq<Line>, temp: Spare)
    requires Assembled(source, temp)
    ensures Compile(source, temp, false, FIRST_LABEL) == Some(Made(source, temp, |source|))
  {
    hide Compile;
    CompileSoFar(source, temp, |source|);
    var st := ScanAt(source, temp, |source|);
    assert source[|source|..] == [];
    CompileNothing(temp, st.ignore, st.n);
    var made := Made(source, temp, |source|);
    assert made + [] == made;
  }

  lemma {:induction false} CompileNothing(temp: Spare, ignore: bool, n: nat)
    ensures Compile([], temp, ignore, n) == Some([])
  {
  }
}
