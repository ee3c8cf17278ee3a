/** The lines the signature pass writes.  Each source line is written with the code put before and behind
    it, so every address moves; where lines, labels and addresses are found again is shown here.  The code
    put in carries no labels, and the line errors are reported at stays a line of its own. */
module ControlOutput {
  import opened Arithmetic
  import opened ControlChecks
  import opened FlowGraph
  import opened ReplacementData
  import opened SignaturePass
  import opened Thumb

  /** What the pass works on: the registers it may use, signatures and predecessors, the lines, the labels
      of the graph, and those of the blocks it checks. */
  datatype Job = Job(c: Reserved, p: Plan, lines: seq<Line>, all: set<Node>, labels: set<Node>)

  predicate Placing(j: Job) {
    WellSigned(j.p) && j.labels <= j.p.sig.Keys
  }

  function Free(c: Reserved): set<Reg> {
    {c.tmp, c.d, c.gsr}
  }

  /** What line i holds is not a label followed by another one. */
  predicate Lone(lines: seq<Line>, i: nat) {
    i + 1 < |lines| ==> !(lines[i].Label? && lines[i + 1].Label?)
  }

  /** A line the pass handles: it does not name the reserved registers, only checked blocks are called, and not
      by way of a register, and no label stands right behind one a call returns to, or one whose address is
      taken.  No checked block runs into the line errors are reported at without an instruction. */
  predicate EligibleAt(j: Job, k: nat)
    requires k < |j.lines|
  {
    match j.lines[k]
    case Op(cond, ins) =>
      && Apart(Free(j.c), Tokens(ins)) && !ins.CallReg?
      && (ins.Call? ==> cond.None? && ins.l in j.labels && Lone(j.lines, k + 1))
      && (ins.AddressOf? && Find(j.lines, ins.l).Some? ==> Lone(j.lines, Find(j.lines, ins.l).value))
      && (ins.Literal? && ins.c.Address? && Find(j.lines, ins.c.l).Some? ==>
            Lone(j.lines, Find(j.lines, ins.c.l).value))
    case Label(l) => l in j.labels && k + 1 < |j.lines| ==> j.lines[k + 1] != Label(j.c.error)
    case _ => true
  }

  /** The checked blocks are among those of the graph; errors are reported outside of them. */
  predicate Eligible(j: Job) {
    && Placing(j) && Distinct(j.c) && SP !in Free(j.c) && LR !in Free(j.c)
    && Once(j.lines) && (forall k | 0 <= k < |j.lines| :: EligibleAt(j, k))
    && j.labels <= j.all && j.p.start in j.labels && j.c.error !in j.labels && Find(j.lines, j.c.error).Some?
  }

  // ----- Rows -----

  function RowOf(a: Placed): seq<Line> {
    a.before + [a.line] + a.behind
  }

  function Joined(rows: seq<Placed>): seq<Line> {
    if rows == [] then [] else Joined(rows[..|rows| - 1]) + RowOf(rows[|rows| - 1])
  }

  /** Writes the lines out, each with its code. */
  method WriteOut(a: array<Placed>) returns (out: seq<Line>)
    ensures out == Joined(a[..])
  {
    out := [];
    var i := 0;
    while i < a.Length
      invariant i <= a.Length && out == Joined(a[..i])
    {
      assert a[..i + 1][..i] == a[..i];
      out := out + RowOf(a[i]);
      i := i + 1;
    }
    assert a[..i] == a[..];
  }

  function Row(j: Job, k: nat): seq<Line>
    requires Placing(j) && k < |j.lines|
  {
    RowOf(PlacedAt(j.c, j.p, j.lines, j.labels, {}, k))
  }

  function RowsTo(j: Job, k: nat): seq<Line>
    requires Placing(j) && k <= |j.lines|
  {
    if k == 0 then [] else RowsTo(j, k - 1) + Row(j, k - 1)
  }

  function Output(j: Job): seq<Line>
    requires Placing(j)
  {
    RowsTo(j, |j.lines|)
  }

  lemma {:induction false} RowsJoined(j: Job, rows: seq<Placed>, k: nat)
    requires Placing(j) && |rows| == |j.lines| && k <= |rows|
    requires forall i | 0 <= i < |rows| :: rows[i] == PlacedAt(j.c, j.p, j.lines, j.labels, {}, i)
    ensures Joined(rows[..k]) == RowsTo(j, k)
  {
    hide PlacedAt, RowOf;
    if k > 0 {
      RowsJoined(j, rows, k - 1);
      assert rows[..k][..k - 1] == rows[..k - 1];
    }
  }

  /** The whole pass over the lines: the code is placed, and the rows are written out. */
  method Instrument(j: Job, at: map<Node, nat>) returns (out: seq<Line>)
    requires Placing(j) && Once(j.lines)
    requires forall x | x in j.labels :: x in at && at[x] < |j.lines| && j.lines[at[x]] == Label(x)
    ensures out == Output(j)
  {
    hide PlacedAt, Once, Joined;
    var a := new Placed[|j.lines|](i requires 0 <= i < |j.lines| => Placed([], j.lines[i], []));
    PlaceCode(j.c, j.p, j.lines, j.labels, at, a);
    out := WriteOut(a);
    RowsJoined(j, a[..], |j.lines|);
    assert a[..][..|j.lines|] == a[..];
  }

  function Start(j: Job, k: nat): nat
    requires Placing(j) && k <= |j.lines|
  {
    |RowsTo(j, k)|
  }

  function Ahead(j: Job, k: nat): seq<Line>
    requires Placing(j) && k < |j.lines|
  {
    Before(j.c, j.p, j.lines, j.labels, k)
  }

  function After(j: Job, k: nat): seq<Line>
    requires Placing(j) && k < |j.lines|
  {
    Behind(j.c, j.p, j.lines[k], j.labels)
  }

  /** The place of the source line itself. */
  function Head(j: Job, k: nat): nat
    requires Placing(j) && k < |j.lines|
  {
    Start(j, k) + |Ahead(j, k)|
  }

  lemma {:induction false} RowIs(j: Job, k: nat)
    requires Placing(j) && k < |j.lines|
    ensures Row(j, k) == Ahead(j, k) + [j.lines[k]] + After(j, k)
  {
    hide Before, Behind;
  }

  lemma {:induction false} RowsPrefix(j: Job, k: nat, m: nat)
    requires Placing(j) && k <= m <= |j.lines|
    ensures Start(j, k) <= Start(j, m) && RowsTo(j, m)[..Start(j, k)] == RowsTo(j, k)
    decreases m - k
  {
    hide Row;
    if k < m {
      RowsPrefix(j, k, m - 1);
    }
  }

  /** The rows lie behind each other. */
  lemma {:induction false} RowPlace(j: Job, k: nat)
    requires Placing(j) && k < |j.lines|
    ensures Start(j, k) <= Head(j, k) < Start(j, k + 1) <= |Output(j)|
    ensures Start(j, k + 1) == Head(j, k) + 1 + |After(j, k)|
    ensures Output(j)[Start(j, k)..Head(j, k)] == Ahead(j, k)
    ensures Output(j)[Head(j, k)] == j.lines[k]
    ensures Output(j)[Head(j, k) + 1..Start(j, k + 1)] == After(j, k)
    ensures Output(j)[..Start(j, k)] == RowsTo(j, k)
  {
    hide Ahead, After, Row;
    RowIs(j, k);
    RowsPrefix(j, k, |j.lines|);
    RowsPrefix(j, k + 1, |j.lines|);
    var out, row, p := Output(j), Row(j, k), Start(j, k);
    assert out[..Start(j, k + 1)] == RowsTo(j, k) + row;
    assert out[p..Start(j, k + 1)] == row;
    PartsOf(out, p, Ahead(j, k), j.lines[k], After(j, k));
  }

  lemma {:induction false} PartsOf(out: seq<Line>, p: nat, a: seq<Line>, line: Line, b: seq<Line>)
    requires p + |a| + 1 + |b| <= |out| && out[p..p + |a| + 1 + |b|] == a + [line] + b
    ensures out[p..p + |a|] == a && out[p + |a|] == line && out[p + |a| + 1..p + |a| + 1 + |b|] == b
  {
    var row := a + ([line] + b);
    assert out[p..p + |row|] == row;
    SliceOf(out, p, row, 0, |a|);
    SliceOf(out, p, row, |a|, |a| + 1);
    SliceOf(out, p, row, |a| + 1, |row|);
    assert out[p + |a|..p + |a| + 1] == [out[p + |a|]];
  }

  lemma {:induction false} SliceOf(out: seq<Line>, p: nat, row: seq<Line>, i: nat, k: nat)
    requires p + |row| <= |out| && out[p..p + |row|] == row && i <= k <= |row|
    ensures out[p + i..p + k] == row[i..k]
  {
    forall t | 0 <= t < k - i
      ensures out[p + i..p + k][t] == row[i..k][t]
    {
      assert out[p..p + |row|][i + t] == out[p + (i + t)];
    }
  }

  // ----- The code put in -----

  /** The instructions put in go on to the next line, but for the branch that reports an error. */
  predicate PutIn(c: Reserved, line: Line) {
    line == Op(Some(NE), Branch(c.error)) || (line.Op? && line.cond.None? && GoesOn(line.ins) && !line.ins.Branch?)
  }

  predicate AllPutIn(c: Reserved, code: seq<Line>) {
    forall line | line in code :: PutIn(c, line)
  }

  lemma {:induction false} CheckPutIn(c: Reserved, p: Plan, x: Node)
    requires WellSigned(p) && x in p.preds
    ensures AllPutIn(c, Check(c, p, x))
  {
    hide Distance;
  }

  lemma {:induction false} RowPutIn(j: Job, k: nat)
    requires Placing(j) && k < |j.lines|
    ensures AllPutIn(j.c, Ahead(j, k)) && AllPutIn(j.c, After(j, k))
  {
    hide Covering, Check, WellSigned, Distance;
    if j.lines[k].Label? && j.lines[k].l in j.p.preds {
      CheckPutIn(j.c, j.p, j.lines[k].l);
    }
  }

  lemma {:induction false} NoLabelsPutIn(c: Reserved, code: seq<Line>, l: nat)
    requires AllPutIn(c, code)
    ensures Label(l) !in code
  {
  }

  // ----- Labels and addresses -----

  lemma {:induction false} RowsLabels(j: Job, k: nat, l: nat)
    requires Placing(j) && k <= |j.lines| && Label(l) !in j.lines[..k]
    ensures Label(l) !in RowsTo(j, k)
  {
    hide Row, Ahead, After, AllPutIn;
    if k > 0 {
      assert j.lines[..k] == j.lines[..k - 1] + [j.lines[k - 1]];
      RowsLabels(j, k - 1, l);
      RowIs(j, k - 1);
      RowPutIn(j, k - 1);
      NoLabelsPutIn(j.c, Ahead(j, k - 1), l);
      NoLabelsPutIn(j.c, After(j, k - 1), l);
    }
  }

  lemma {:induction false} FirstIs(prog: seq<Line>, l: nat, p: nat)
    requires p < |prog| && prog[p] == Label(l) && Label(l) !in prog[..p]
    ensures Find(prog, l) == Some(p)
  {
    var i := Find(prog, l).value;
    assert forall k | 0 <= k < p :: prog[k] in prog[..p];
    assert forall k | 0 <= k < i :: prog[k] in prog[..i];
  }

  /** A label is found where its line went. */
  lemma {:induction false} FindLine(j: Job, l: nat)
    requires Placing(j) && Find(j.lines, l).Some?
    ensures Find(Output(j), l) == Some(Head(j, Find(j.lines, l).value))
  {
    hide Ahead, After, RowsTo, AllPutIn, Find;
    var k := Find(j.lines, l).value;
    RowPlace(j, k);
    RowsLabels(j, k, l);
    RowPutIn(j, k);
    NoLabelsPutIn(j.c, Ahead(j, k), l);
    var out := Output(j);
    assert out[..Head(j, k)] == out[..Start(j, k)] + out[Start(j, k)..Head(j, k)];
    FirstIs(out, l, Head(j, k));
  }

  /** The address of each source line in the output; behind a label it is that of the label. */
  function Places(j: Job): (r: seq<nat>)
    requires Placing(j)
    ensures |r| == |j.lines| + 1
  {
    seq(|j.lines| + 1, k requires 0 <= k <= |j.lines| => PlaceOf(j, k))
  }

  function PlaceOf(j: Job, k: nat): nat
    requires Placing(j) && k <= |j.lines|
  {
    if k > 0 && j.lines[k - 1].Label? then Settle(Output(j), Head(j, k - 1)) else Settle(Output(j), Start(j, k))
  }

  /** The address of a label. */
  lemma {:induction false} LabelPlace(j: Job, k: nat)
    requires Placing(j) && k < |j.lines| && j.lines[k].Label? && Lone(j.lines, k)
    ensures Settle(j.lines, k) == k + 1 && Places(j)[k + 1] == Settle(Output(j), Head(j, k))
  {
    hide Output, Start, Head;
  }

  lemma {:induction false} SettledHere(prog: seq<Line>, i: nat)
    requires i < |prog| ==> !prog[i].Label?
    ensures Settle(prog, i) == i
  {
  }

  lemma {:induction false} NothingBehind(j: Job, k: nat)
    requires Placing(j) && k < |j.lines| && j.lines[k].Op?
    ensures After(j, k) == []
  {
  }

  lemma {:induction false} PlaceHere(j: Job, k: nat)
    requires Placing(j) && k <= |j.lines| && (k > 0 ==> !j.lines[k - 1].Label?)
    ensures Places(j)[k] == Settle(Output(j), Start(j, k))
  {
    hide Output, Start, Head;
  }

  lemma {:induction false} EligiblePlacing(j: Job)
    requires Eligible(j)
    ensures Placing(j)
  {
  }

  lemma {:induction false} CallEnds(j: Job, k: nat)
    requires Eligible(j) && k < |j.lines| && j.lines[k].Op? && j.lines[k].ins.Call?
    ensures Ends(j.lines[k], j.labels) && Lone(j.lines, k + 1)
  {
    assert EligibleAt(j, k);
  }

  /** Where the row of an instruction ends. */
  lemma {:induction false} BehindOp(j: Job, k: nat)
    requires Placing(j) && k < |j.lines| && j.lines[k].Op?
    ensures Start(j, k + 1) == Head(j, k) + 1
  {
    hide Output, Ahead, After, Placing;
    RowPlace(j, k);
    NothingBehind(j, k);
  }

  lemma {:induction false} BehindCall(j: Job, k: nat)
    requires Eligible(j) && k + 1 < |j.lines| && j.lines[k].Op? && j.lines[k].ins.Call?
    ensures Head(j, k + 1) == Head(j, k) + 1
  {
    hide Start, Ahead, Ends, Eligible, Placing;
    EligiblePlacing(j);
    CallEnds(j, k);
    BehindOp(j, k);
    NothingAhead(j, k + 1);
  }

  /** The address behind a call. */
  lemma {:induction false} ReturnPlace(j: Job, k: nat)
    requires Eligible(j) && k < |j.lines| && j.lines[k].Op? && j.lines[k].ins.Call?
    ensures Settle(j.lines, k + 1) <= |j.lines|
    ensures Places(j)[Settle(j.lines, k + 1)] == Settle(Output(j), Head(j, k) + 1)
  {
    hide Output, Start, Head, Settle, Places, Eligible, Placing;
    EligiblePlacing(j);
    CallEnds(j, k);
    if k + 1 < |j.lines| && j.lines[k + 1].Label? {
      LabelPlace(j, k + 1);
      BehindCall(j, k);
    } else {
      PlaceHere(j, k + 1);
      SettledHere(j.lines, k + 1);
      BehindOp(j, k);
    }
  }

  /** Nothing is put before the line behind one where a block ends. */
  lemma {:induction false} NothingAhead(j: Job, k: nat)
    requires Placing(j) && 0 < k < |j.lines| && Ends(j.lines[k - 1], j.labels)
    ensures Ahead(j, k) == []
  {
  }

  lemma {:induction false} SettledBehind(prog: seq<Line>, q: nat)
    requires q + 1 < |prog| && prog[q].Label? && !prog[q + 1].Label?
    ensures Settle(prog, q) == q + 1
  {
  }

  lemma {:induction false} PlaceBehind(j: Job, k: nat)
    requires Placing(j) && 0 < k <= |j.lines| && j.lines[k - 1].Label?
    ensures Places(j)[k] == Settle(Output(j), Head(j, k - 1))
  {
    hide Output, Start, Head;
  }

  /** Returning to a checked block leads to its check. */
  lemma {:induction false} LandedPlace(j: Job, k: nat)
    requires Placing(j) && 0 < k <= |j.lines| && j.lines[k - 1].Label? && After(j, k - 1) != []
    ensures Places(j)[k] == Head(j, k - 1) + 1
  {
    hide Output, Ahead, After, PutIn, Places, Start, Head, Settle;
    RowPlace(j, k - 1);
    RowPutIn(j, k - 1);
    PlaceBehind(j, k);
    NotLabel(j.c, After(j, k - 1));
    var q := Head(j, k - 1) + 1;
    assert Output(j)[q] == Output(j)[q..Start(j, k)][0];
    SettledBehind(Output(j), q - 1);
  }

  lemma {:induction false} NotLabel(c: Reserved, code: seq<Line>)
    requires AllPutIn(c, code) && code != []
    ensures !code[0].Label?
  {
    assert code[0] in code;
  }

  // ----- The line errors are reported at -----

  function ErrorLine(j: Job): nat
    requires Eligible(j)
  {
    Find(j.lines, j.c.error).value
  }

  function AlarmPlace(j: Job): nat
    requires Eligible(j)
  {
    Head(j, ErrorLine(j))
  }

  lemma {:induction false} AlarmIs(j: Job)
    requires Eligible(j)
    ensures Find(Output(j), j.c.error) == Some(AlarmPlace(j))
    ensures ErrorLine(j) < |j.lines| && j.lines[ErrorLine(j)] == Label(j.c.error)
    ensures AlarmPlace(j) == Start(j, ErrorLine(j)) && Start(j, ErrorLine(j) + 1) == AlarmPlace(j) + 1
  {
    hide Output, Covering;
    FindLine(j, j.c.error);
    RowPlace(j, ErrorLine(j));
  }

  /** No other row holds it. */
  lemma {:induction false} NotAlarm(j: Job, k: nat, q: nat)
    requires Eligible(j) && k <= |j.lines| && k != ErrorLine(j)
    requires q == Start(j, k) || (k < |j.lines| && Start(j, k) <= q < Start(j, k + 1))
    ensures q != AlarmPlace(j)
  {
    hide Output, RowsTo, AlarmPlace, EligibleAt, Once, WellSigned, Distinct, Find;
    AlarmIs(j);
    var e := ErrorLine(j);
    if k < e {
      RowsPrefix(j, k + 1, e);
      RowPlace(j, k);
    } else {
      RowsPrefix(j, e + 1, k);
    }
  }
}
