/** The part of the signature pass that draws signatures and puts the code into the lines.  Signatures are
    drawn until they differ from all earlier ones.  The loop over the labels walks each block from its first
    line; whatever order the labels come in, every line ends up with the same code in front of it and
    behind it. */
module SignaturePass {
  import opened Arithmetic
  import opened ControlChecks
  import opened ControlRuns
  import opened FlowGraph
  import opened Thumb

  // ----- Signatures -----

  predicate Injective(sig: map<Node, Word>) {
    forall x, y | x in sig && y in sig :: sig[x] == sig[y] ==> x == y
  }

  lemma {:induction false} ValuesAdd(m: map<Node, Word>, x: Node, d: Word)
    requires x !in m
    ensures m[x := d].Values == m.Values + {d} && m[x := d].Keys == m.Keys + {x}
  {
    var n := m[x := d];
    assert n[x] == d && x in n;
    forall v | v in m.Values ensures v in n.Values {
      var y :| y in m && m[y] == v;
      assert n[y] == v;
    }
  }

  lemma {:induction false} InjectiveAdd(m: map<Node, Word>, x: Node, d: Word)
    requires Injective(m) && x !in m && d !in m.Values
    ensures Injective(m[x := d])
  {
    assert forall y | y in m :: m[y] in m.Values;
  }

  lemma {:induction false} InjectiveSize(sig: map<Node, Word>)
    requires Injective(sig)
    ensures |sig.Values| == |sig|
    decreases |sig|
  {
    if sig != map[] {
      var x :| x in sig;
      var rest := sig - {x};
      assert sig == rest[x := sig[x]];
      InjectiveSize(rest);
      ValuesAdd(rest, x, sig[x]);
      assert forall y | y in rest :: rest[y] == sig[y] && y != x;
      assert sig[x] !in rest.Values;
    }
  }

  function First(labels: seq<Node>, i: nat): set<Node>
    requires i <= |labels|
  {
    if i == 0 then {} else First(labels, i - 1) + {labels[i - 1]}
  }

  lemma {:induction false} FirstHolds(labels: seq<Node>, i: nat, x: Node)
    requires i <= |labels|
    ensures x in First(labels, i) <==> exists j :: 0 <= j < i && labels[j] == x
  {
    if i > 0 {
      FirstHolds(labels, i - 1, x);
    }
  }

  predicate Different(labels: seq<Node>) {
    forall i, j | 0 <= i < j < |labels| :: labels[i] != labels[j]
  }

  lemma {:induction false} SubsetSize<T>(a: set<T>, b: set<T>)
    requires a <= b
    ensures |a| <= |b|
    decreases a
  {
    if a != {} {
      var x :| x in a;
      SubsetSize(a - {x}, b - {x});
    }
  }

  predicate Taken(draws: seq<Word>, k: nat, values: set<Word>)
    requires k <= |draws|
  {
    forall j | 0 <= j < k :: draws[j] in values
  }

  lemma {:induction false} TakenMore(draws: seq<Word>, k: nat, values: set<Word>)
    requires k < |draws| && Taken(draws, k, values)
    ensures Taken(draws, k + 1, values + {draws[k]})
  {
  }

  /** Draws again while the number is taken. */
  method Redraw(draws: seq<Word>, from: nat, values: set<Word>) returns (k: nat)
    requires from <= |draws| && Taken(draws, from, values)
    ensures from <= k <= |draws| && Taken(draws, k, values) && (k < |draws| ==> draws[k] !in values)
  {
    k := from;
    while k < |draws| && draws[k] in values
      invariant from <= k <= |draws| && Taken(draws, k, values)
    {
      k := k + 1;
    }
  }

  function Numbers(draws: seq<Word>): set<Word> {
    set d | d in draws
  }

  lemma {:induction false} Exhausted(m: map<Node, Word>, draws: seq<Word>)
    requires Injective(m) && Taken(draws, |draws|, m.Values)
    ensures |Numbers(draws)| <= |m|
  {
    InjectiveSize(m);
    var all := Numbers(draws);
    forall d | d in all ensures d in m.Values {
      var j :| 0 <= j < |draws| && draws[j] == d;
    }
    SubsetSize(all, m.Values);
  }

  /** Each label gets the next number drawn that no label before it has got.  Labels have signatures of
      their own, and drawing fails only when fewer different numbers were drawn than there are labels. */
  method AssignSignatures(labels: seq<Node>, draws: seq<Word>) returns (sig: Option<map<Node, Word>>)
    requires Different(labels)
    ensures sig.Some? ==> Injective(sig.value) && forall x :: x in sig.value <==> x in labels
    ensures sig.None? ==> |Numbers(draws)| < |labels|
  {
    hide Injective, Taken, First, Different;
    var m: map<Node, Word> := map[];
    var i, k := 0, 0;
    NothingSigned(draws, labels);
    while i < |labels|
      invariant i <= |labels| && k <= |draws|
      invariant Injective(m) && m.Keys == First(labels, i) && |m| == i
      invariant Taken(draws, k, m.Values)
    {
      k := Redraw(draws, k, m.Values);
      if k == |draws| {
        Exhausted(m, draws);
        return None;
      }
      SignNext(labels, i, m, draws, k);
      m := m[labels[i] := draws[k]];
      i, k := i + 1, k + 1;
    }
    AllSigned(labels, m);
    return Some(m);
  }

  lemma {:induction false} SignNext(labels: seq<Node>, i: nat, m: map<Node, Word>, draws: seq<Word>, k: nat)
    requires Different(labels) && i < |labels| && k < |draws|
    requires Injective(m) && m.Keys == First(labels, i) && draws[k] !in m.Values && Taken(draws, k, m.Values)
    ensures var n := m[labels[i] := draws[k]];
      Injective(n) && n.Keys == First(labels, i + 1) && |n| == |m| + 1 && Taken(draws, k + 1, n.Values)
  {
    hide Injective, Taken;
    FirstHolds(labels, i, labels[i]);
    ValuesAdd(m, labels[i], draws[k]);
    TakenMore(draws, k, m.Values);
    InjectiveAdd(m, labels[i], draws[k]);
  }

  lemma {:induction false} AllSigned(labels: seq<Node>, m: map<Node, Word>)
    requires m.Keys == First(labels, |labels|)
    ensures forall x :: x in m <==> x in labels
  {
    forall x ensures x in m <==> x in labels {
      FirstHolds(labels, |labels|, x);
    }
  }

  lemma {:induction false} NothingSigned(draws: seq<Word>, labels: seq<Node>)
    ensures Injective(map[]) && Taken(draws, 0, {}) && First(labels, 0) == {}
    ensures var m: map<Node, Word> := map[]; m.Values == {} && m.Keys == {}
  {
  }

  // ----- Placing the code -----

  /** A line with the code put before and behind it. */
  datatype Placed = Placed(before: seq<Line>, line: Line, behind: seq<Line>)

  /** The walk through a block ends behind the line: a directive, a return, or an unconditional branch to
      a labelled block. */
  predicate Ends(line: Line, labels: set<Node>) {
    line.Mark? ||
    (line.Op? && line.cond.None? && line.ins.Pop? && line.ins.pc) ||
    (line.Op? && line.cond.None? && (line.ins.Branch? || line.ins.Call?) && line.ins.l in labels)
  }

  predicate Starts(line: Line, labels: set<Node>) {
    line.Label? && line.l in labels
  }

  /** The block whose walk comes to line i. */
  function Covering(lines: seq<Line>, labels: set<Node>, i: nat): Option<Node>
    requires i <= |lines|
  {
    if i == 0 then None
    else if Starts(lines[i - 1], labels) then Some(lines[i - 1].l)
    else if Ends(lines[i - 1], labels) then None
    else Covering(lines, labels, i - 1)
  }

  /** That is the one whose label comes last, unless the walk has ended behind it. */
  lemma {:induction false} CoveringIff(lines: seq<Line>, labels: set<Node>, i: nat, y: Node)
    requires i <= |lines|
    ensures Covering(lines, labels, i) == Some(y) <==>
      y in labels && exists k: nat ::
        && k < i && lines[k] == Label(y)
        && (forall j | k < j < i :: !(lines[j].Label? && lines[j].l in labels))
        && (forall j | k < j < i :: !lines[j].Mark?)
        && (forall j | k < j < i ::
              !(lines[j].Op? && lines[j].cond == None &&
                ((lines[j].ins.Pop? && lines[j].ins.pc) ||
                 ((lines[j].ins.Branch? || lines[j].ins.Call?) && lines[j].ins.l in labels))))
  {
    if i > 0 {
      CoveringIff(lines, labels, i - 1, y);
    }
  }

  /** The labelled block a line leads to: the one it branches to, or the one it starts. */
  function LeadsTo(line: Line, labels: set<Node>): Option<Node> {
    if Starts(line, labels) then Some(line.l)
    else if Target(line).Some? && Target(line).value in labels && !line.ins.BranchZero? then Target(line)
    else None
  }

  function Before(c: Reserved, p: Plan, lines: seq<Line>, labels: set<Node>, i: nat): seq<Line>
    requires WellSigned(p) && labels <= p.sig.Keys && i < |lines|
  {
    var x := Covering(lines, labels, i);
    var y := LeadsTo(lines[i], labels);
    if x.Some? && y.Some? && x.value in labels then PrepareIf(c, p, x.value, y.value) else []
  }

  function Behind(c: Reserved, p: Plan, line: Line, labels: set<Node>): seq<Line>
    requires WellSigned(p)
  {
    if !Starts(line, labels) then []
    else if line.l == p.start then [Do(Literal(c.gsr, Number(p.sig[p.start])))]
    else if line.l in p.preds then Check(c, p, line.l)
    else []
  }

  /** What the pass makes of line i, given the labels still to be looked at. */
  function PlacedAt(c: Reserved, p: Plan, lines: seq<Line>, labels: set<Node>, todo: set<Node>, i: nat): Placed
    requires WellSigned(p) && labels <= p.sig.Keys && i < |lines|
  {
    var x := Covering(lines, labels, i);
    Placed(if x.Some? && x.value in todo then [] else Before(c, p, lines, labels, i), lines[i],
           if lines[i].Label? && lines[i].l in todo then [] else Behind(c, p, lines[i], labels))
  }

  /** Each label stands on one line. */
  predicate Once(lines: seq<Line>) {
    forall i, j | 0 <= i < j < |lines| && lines[i].Label? && lines[j].Label? :: lines[i].l != lines[j].l
  }

  lemma {:induction false} CoveredFrom(lines: seq<Line>, labels: set<Node>, i: nat) returns (start: nat)
    requires i <= |lines| && Covering(lines, labels, i).Some?
    ensures start < i && lines[start] == Label(Covering(lines, labels, i).value) && lines[start].l in labels
    ensures forall j | start < j < i :: !Starts(lines[j], labels) && !Ends(lines[j], labels)
  {
    if Starts(lines[i - 1], labels) {
      start := i - 1;
    } else {
      start := CoveredFrom(lines, labels, i - 1);
    }
  }

  /** The walk of block x from its label at `start` comes to exactly the lines up to `last`. */
  ghost predicate Walked(lines: seq<Line>, labels: set<Node>, x: Node, start: nat, last: nat)
    requires start <= last < |lines|
  {
    forall i | 0 <= i < |lines| :: Covering(lines, labels, i) == Some(x) <==> start < i <= last
  }

  lemma {:induction false} WalkIs(lines: seq<Line>, labels: set<Node>, x: Node, start: nat, last: nat)
    requires Once(lines) && start <= last < |lines| && lines[start] == Label(x) && x in labels
    requires forall j | start < j < last :: !Starts(lines[j], labels) && !Ends(lines[j], labels)
    requires last + 1 == |lines| || (last > start && (Starts(lines[last], labels) || Ends(lines[last], labels)))
    ensures Walked(lines, labels, x, start, last)
  {
    forall i | 0 <= i < |lines| ensures Covering(lines, labels, i) == Some(x) <==> start < i <= last {
      if start < i <= last {
        CoversOn(lines, labels, x, start, i);
      }
      if Covering(lines, labels, i) == Some(x) {
        CoveredOnly(lines, labels, x, start, i);
      }
    }
  }

  lemma {:induction false} CoveredOnly(lines: seq<Line>, labels: set<Node>, x: Node, start: nat, i: nat)
    requires Once(lines) && start < |lines| && i < |lines| && lines[start] == Label(x)
    requires Covering(lines, labels, i) == Some(x)
    ensures start < i && forall j | start < j < i :: !Starts(lines[j], labels) && !Ends(lines[j], labels)
  {
    var k := CoveredFrom(lines, labels, i);
    assert lines[k].Label? && lines[start].Label?;
    assert k == start;
  }

  lemma {:induction false} CoversOn(lines: seq<Line>, labels: set<Node>, x: Node, start: nat, i: nat)
    requires start < i <= |lines| && lines[start] == Label(x) && x in labels
    requires forall j | start < j < i :: !Starts(lines[j], labels) && !Ends(lines[j], labels)
    ensures Covering(lines, labels, i) == Some(x)
  {
    if i > start + 1 {
      CoversOn(lines, labels, x, start, i - 1);
    }
  }

  /** Walks through one block: the check behind its label, and D loaded before the lines that lead on.
      The walk stops at the next label, behind which nothing of this block remains. */
  method PlaceBlock(c: Reserved, p: Plan, lines: seq<Line>, labels: set<Node>, x: Node, start: nat, a: array<Placed>)
    returns (ghost last: nat)
    requires WellSigned(p) && labels <= p.sig.Keys && Once(lines) && a.Length == |lines|
    requires start < |lines| && lines[start] == Label(x) && x in labels && x != p.start
    modifies a
    ensures start <= last < |lines| && Walked(lines, labels, x, start, last)
    ensures forall i | 0 <= i < |lines| :: a[i] == Placed(
      if start < i <= last then Before(c, p, lines, labels, i) else old(a[i]).before, old(a[i]).line,
      if i == start then Behind(c, p, lines[i], labels) else old(a[i]).behind)
  {
    hide Before, Behind, Covering, WellSigned, Ends;
    var code := BehindOf(c, p, lines[start], labels);
    a[start] := a[start].(behind := code);
    var i := start + 1;
    while i < |lines| && !Starts(lines[i], labels) && !Ends(lines[i], labels)
      invariant start < i <= |lines|
      invariant forall j | start < j < i :: !Starts(lines[j], labels) && !Ends(lines[j], labels)
      invariant forall j | 0 <= j < |lines| :: a[j] == Placed(
        if start < j < i then Before(c, p, lines, labels, j) else old(a[j]).before, old(a[j]).line,
        if j == start then Behind(c, p, lines[j], labels) else old(a[j]).behind)
    {
      CoversOn(lines, labels, x, start, i);
      var before := BeforeOf(c, p, lines, labels, x, i);
      a[i] := a[i].(before := before);
      i := i + 1;
    }
    last := if i < |lines| then i else i - 1;
    if i < |lines| {
      CoversOn(lines, labels, x, start, i);
      var before := BeforeOf(c, p, lines, labels, x, i);
      a[i] := a[i].(before := before);
    }
    WalkIs(lines, labels, x, start, last);
  }

  method BehindOf(c: Reserved, p: Plan, line: Line, labels: set<Node>) returns (code: seq<Line>)
    requires WellSigned(p) && Starts(line, labels) && line.l != p.start
    ensures code == Behind(c, p, line, labels)
  {
    code := if line.l in p.preds then Check(c, p, line.l) else [];
  }

  method BeforeOf(c: Reserved, p: Plan, lines: seq<Line>, labels: set<Node>, x: Node, i: nat) returns (code: seq<Line>)
    requires WellSigned(p) && labels <= p.sig.Keys && i < |lines| && x in labels
    requires Covering(lines, labels, i) == Some(x)
    ensures code == Before(c, p, lines, labels, i)
  {
    var y := LeadsTo(lines[i], labels);
    code := if y.Some? then PrepareIf(c, p, x, y.value) else [];
  }

  /** One label of those still to be looked at. */
  method PlaceLabel(c: Reserved, p: Plan, lines: seq<Line>, labels: set<Node>, x: Node, start: nat, a: array<Placed>,
                    ghost todo: set<Node>)
    requires WellSigned(p) && labels <= p.sig.Keys && Once(lines) && a.Length == |lines| && todo <= labels && x in todo
    requires start < |lines| && lines[start] == Label(x)
    requires forall i | 0 <= i < |lines| :: a[i] == PlacedAt(c, p, lines, labels, todo, i)
    modifies a
    ensures forall i | 0 <= i < |lines| :: a[i] == PlacedAt(c, p, lines, labels, todo - {x}, i)
  {
    hide PlacedAt, Once, Before, Behind, Walked, WellSigned;
    ghost var was := a[..];
    if x == p.start {
      StartSigned(p);
      var code := [Do(Literal(c.gsr, Number(p.sig[x])))];
      a[start] := a[start].(behind := code);
      StartPlaced(c, p, lines, labels, todo, start, was, a[..]);
    } else {
      ghost var last := PlaceBlock(c, p, lines, labels, x, start, a);
      BlockPlaced(c, p, lines, labels, todo, x, start, last, was, a[..]);
    }
  }

  lemma {:induction false} StartSigned(p: Plan)
    requires WellSigned(p)
    ensures p.start in p.sig
  {
  }

  /** All blocks, in whatever order the set of labels is gone through: each line ends up with the code
      of its own place only. */
  method PlaceCode(c: Reserved, p: Plan, lines: seq<Line>, labels: set<Node>, at: map<Node, nat>, a: array<Placed>)
    requires WellSigned(p) && labels <= p.sig.Keys && Once(lines) && a.Length == |lines|
    requires forall x | x in labels :: x in at && at[x] < |lines| && lines[at[x]] == Label(x)
    requires forall i | 0 <= i < |lines| :: a[i] == Placed([], lines[i], [])
    modifies a
    ensures forall i | 0 <= i < |lines| :: a[i] == PlacedAt(c, p, lines, labels, {}, i)
  {
    hide PlacedAt, Once, WellSigned;
    var todo := labels;
    NothingPlaced(c, p, lines, labels);
    while todo != {}
      invariant todo <= labels
      invariant forall i | 0 <= i < |lines| :: a[i] == PlacedAt(c, p, lines, labels, todo, i)
      decreases |todo|
    {
      var x :| x in todo;
      PlaceLabel(c, p, lines, labels, x, at[x], a, todo);
      todo := todo - {x};
    }
  }

  lemma {:induction false} NothingPlaced(c: Reserved, p: Plan, lines: seq<Line>, labels: set<Node>)
    requires WellSigned(p) && labels <= p.sig.Keys
    ensures forall i | 0 <= i < |lines| :: PlacedAt(c, p, lines, labels, labels, i) == Placed([], lines[i], [])
  {
    hide Check, PrepareIf;
  }

  lemma {:induction false} StartPlaced(c: Reserved, p: Plan, lines: seq<Line>, labels: set<Node>, todo: set<Node>,
                                       k: nat, was: seq<Placed>, now: seq<Placed>)
    requires WellSigned(p) && labels <= p.sig.Keys && Once(lines) && |was| == |now| == |lines| && todo <= labels
    requires p.start in todo
    requires forall i | 0 <= i < |lines| :: was[i] == PlacedAt(c, p, lines, labels, todo, i)
    requires k < |lines| && lines[k] == Label(p.start)
    requires now == was[k := was[k].(behind := [Do(Literal(c.gsr, Number(p.sig[p.start])))])]
    ensures forall i | 0 <= i < |lines| :: now[i] == PlacedAt(c, p, lines, labels, todo - {p.start}, i)
  {
    hide Check, Covering, Ends;
    forall i | 0 <= i < |lines| ensures now[i] == PlacedAt(c, p, lines, labels, todo - {p.start}, i) {
      assert was[i] == PlacedAt(c, p, lines, labels, todo, i);
      if i != k {
        assert lines[i].Label? ==> lines[i].l != p.start;
      }
    }
  }

  lemma {:induction false} BlockPlaced(c: Reserved, p: Plan, lines: seq<Line>, labels: set<Node>, todo: set<Node>,
                                       x: Node, start: nat, last: nat, was: seq<Placed>, now: seq<Placed>)
    requires WellSigned(p) && labels <= p.sig.Keys && Once(lines) && |was| == |now| == |lines| && todo <= labels
    requires x in todo
    requires forall i | 0 <= i < |lines| :: was[i] == PlacedAt(c, p, lines, labels, todo, i)
    requires start <= last < |lines| && lines[start] == Label(x) && Walked(lines, labels, x, start, last)
    requires forall i | 0 <= i < |lines| :: now[i] == Placed(
      if start < i <= last then Before(c, p, lines, labels, i) else was[i].before, was[i].line,
      if i == start then Behind(c, p, lines[i], labels) else was[i].behind)
    ensures forall i | 0 <= i < |lines| :: now[i] == PlacedAt(c, p, lines, labels, todo - {x}, i)
  {
    hide Before, Behind, Covering;
    forall i | 0 <= i < |lines| ensures now[i] == PlacedAt(c, p, lines, labels, todo - {x}, i) {
      assert was[i] == PlacedAt(c, p, lines, labels, todo, i);
      if i != start {
        assert lines[i].Label? ==> lines[i].l != x;
      }
      assert Covering(lines, labels, i) == Some(x) <==> start < i <= last;
    }
  }

  /** The exit is taken at line i: by the instruction there, or by going on to the label there or, if a
      branch at i is not taken, to the label behind it. */
  predicate TakenAt(lines: seq<Line>, labels: set<Node>, i: nat, e: Exit)
    requires i < |lines|
  {
    match e
    case Goto(y) => lines[i].Op? && (lines[i].ins.Branch? || lines[i].ins.Call?) && lines[i].ins.l == y && y in labels
    case Fall(y) => Starts(lines[i], labels) && lines[i].l == y
    case Return(_) => lines[i].Op? && !lines[i].ins.Branch? && !lines[i].ins.Call?
    case Cond(target, behind, _) =>
      && lines[i].Op? && lines[i].ins == Branch(target) && lines[i].cond.Some? && target in labels
      && i + 1 < |lines| && Starts(lines[i + 1], labels) && lines[i + 1].l == behind
    case Zero(target, behind, taken) =>
      && lines[i].Op? && lines[i].ins.BranchZero? && lines[i].ins.l == target
      && (taken || (i + 1 < |lines| && Starts(lines[i + 1], labels) && lines[i + 1].l == behind))
  }

  /** The code placed at the end of a block is the code run on the way out of it, whatever the exit. */
  lemma {:induction false} PlacedOnTheWay(c: Reserved, p: Plan, lines: seq<Line>, labels: set<Node>, i: nat, e: Exit)
    requires WellSigned(p) && labels <= p.sig.Keys && i < |lines|
    requires var x := Covering(lines, labels, i); x.Some? && x.value in labels
    requires TakenAt(lines, labels, i, e)
    ensures var x := Covering(lines, labels, i).value;
      ExitCode(c, p, x, e) ==
      Before(c, p, lines, labels, i) +
      (if (e.Cond? || e.Zero?) && !e.taken then Before(c, p, lines, labels, i + 1) else [])
  {
    hide PrepareIf;
  }
}
