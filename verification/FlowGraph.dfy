/** The control-flow graph the signature pass works on: predecessors of each block, and the pruning of
    blocks nothing leads to. */
module FlowGraph {
  import opened Thumb

  type Node = nat

  // ----- Edges -----

  /** The branch target a line names, if it is a branch. */
  function Target(line: Line): Option<Node> {
    match line
    case Op(_, Branch(l)) => Some(l)
    case Op(_, Call(l)) => Some(l)
    case Op(_, BranchZero(_, _, l)) => Some(l)
    case _ => None
  }

  /** Control does not go on behind the line: an unconditional branch, a call, or a return. */
  predicate Leaves(line: Line) {
    line.Op? &&
    ((line.cond.None? && (line.ins.Branch? || line.ins.Call? || line.ins.BranchReg? || line.ins.CallReg?)) ||
     (line.ins.Pop? && line.ins.pc && line.cond.None?))
  }

  /** The block control is in before line i, if any. */
  function BlockBefore(lines: seq<Line>, labels: set<Node>, i: nat): Option<Node>
    requires i <= |lines|
  {
    if i == 0 then None
    else
      var line := lines[i - 1];
      if line.Label? && line.l in labels then Some(line.l)
      else if Leaves(line) then None
      else BlockBefore(lines, labels, i - 1)
  }

  /** The block control is in is the one whose label comes last, unless a line behind it does not go on: an
      unconditional branch or call, or an unconditional return. */
  lemma {:induction false} BlockBeforeIff(lines: seq<Line>, labels: set<Node>, i: nat, y: Node)
    requires i <= |lines|
    ensures BlockBefore(lines, labels, i) == Some(y) <==>
      y in labels && exists k: nat ::
        && k < i && lines[k] == Label(y)
        && (forall j | k < j < i :: !(lines[j].Label? && lines[j].l in labels))
        && (forall j | k < j < i ::
              !(lines[j].Op? && lines[j].cond == None &&
                (lines[j].ins.Branch? || lines[j].ins.Call? || lines[j].ins.BranchReg? || lines[j].ins.CallReg? ||
                 (lines[j].ins.Pop? && lines[j].ins.pc))))
  {
    if i > 0 {
      BlockBeforeIff(lines, labels, i - 1, y);
    }
  }

  /** Line i is a branch to x from block y, or the label of x reached from block y. */
  predicate EdgeAt(lines: seq<Line>, labels: set<Node>, i: nat, y: Node, x: Node)
    requires i < |lines|
  {
    BlockBefore(lines, labels, i) == Some(y) && (lines[i] == Label(x) || Target(lines[i]) == Some(x))
  }

  ghost predicate Edge(lines: seq<Line>, labels: set<Node>, n: nat, y: Node, x: Node)
    requires n <= |lines|
  {
    exists i: nat :: i < n && EdgeAt(lines, labels, i, y, x)
  }

  // ----- Pruning -----

  /** A set of blocks in which each block but the main functions is led to by another one, or by a
      place outside the graph. */
  ghost predicate Supported(graph: map<Node, set<Node>>, mains: set<Node>, s: set<Node>) {
    s <= graph.Keys &&
    forall x | x in s && x !in mains :: exists y :: y in graph[x] && y != x && (y in s || y !in graph.Keys)
  }

  /** The greatest such set. */
  ghost predicate Greatest(graph: map<Node, set<Node>>, mains: set<Node>, s: set<Node>) {
    Supported(graph, mains, s) && forall t :: Supported(graph, mains, t) ==> t <= s
  }

  /** There is only one, so the order in which blocks are dropped does not matter. */
  lemma {:induction false} GreatestIsUnique(graph: map<Node, set<Node>>, mains: set<Node>, s: set<Node>, t: set<Node>)
    requires Greatest(graph, mains, s) && Greatest(graph, mains, t)
    ensures s == t
  {
  }

  /** The graph without the blocks of a set. */
  function Without(graph: map<Node, set<Node>>, gone: set<Node>): map<Node, set<Node>> {
    map x | x in graph && x !in gone :: graph[x] - gone
  }

  class Flow {
    var labels: set<Node>
    var predecessors: map<Node, set<Node>>

    /** Walks the lines once, noting for each block where control comes from. */
    method FindPredecessors(lines: seq<Line>)
      requires forall i | 0 <= i < |lines| :: Target(lines[i]).Some? ==> Target(lines[i]).value in labels
      modifies this`predecessors
      ensures predecessors.Keys == labels
      ensures forall x, y | x in labels :: y in predecessors[x] <==> Edge(lines, labels, |lines|, y, x)
    {
      predecessors := map x | x in labels :: {};
      var current: Option<Node> := None;
      var i := 0;
      while i < |lines|
        invariant i <= |lines| && predecessors.Keys == labels
        invariant current == BlockBefore(lines, labels, i)
        invariant forall x, y | x in labels :: y in predecessors[x] <==> Edge(lines, labels, i, y, x)
      {
        ghost var before := predecessors;
        var line := lines[i];
        var at := if line.Label? && line.l in labels then Some(line.l) else Target(line);
        if at.Some? && current.Some? {
          predecessors := predecessors[at.value := predecessors[at.value] + {current.value}];
        }
        MoreEdges(lines, labels, i, before, predecessors);
        if line.Label? && line.l in labels {
          current := Some(line.l);
        } else if Leaves(line) {
          current := None;
        }
        i := i + 1;
      }
    }

    /** Drops blocks nothing but themselves leads to, one at a time in any order, until none is left. */
    method Prune(mains: set<Node>)
      modifies this
      ensures Greatest(old(predecessors), mains, predecessors.Keys)
      ensures var gone := old(predecessors).Keys - predecessors.Keys;
        predecessors == Without(old(predecessors), gone) && labels == old(labels) - gone
    {
      ghost var graph, all := predecessors, labels;
      ghost var gone: set<Node> := {};
      var change := true;
      NothingGone(graph);
      while change
        invariant predecessors == Without(graph, gone) && labels == all - gone
        invariant gone <= graph.Keys
        invariant forall t :: Supported(graph, mains, t) ==> t !! gone
        invariant !change ==> forall x | x in predecessors && x !in mains :: !(predecessors[x] <= {x})
        decreases predecessors.Keys, change
      {
        change := false;
        var bare := set x | x in predecessors && x !in mains && predecessors[x] <= {x};
        if bare != {} {
          var x :| x in bare;
          NeverSupported(graph, mains, gone, x);
          WithoutMore(graph, gone, x);
          predecessors := map y | y in predecessors && y != x :: predecessors[y] - {x};
          labels := labels - {x};
          gone := gone + {x};
          change := true;
        }
      }
      RestIsGreatest(graph, mains, gone);
    }
  }

  lemma {:induction false} MoreEdges(lines: seq<Line>, labels: set<Node>, i: nat, before: map<Node, set<Node>>,
                                     after: map<Node, set<Node>>)
    requires i < |lines| && before.Keys == labels && after.Keys == labels
    requires forall x, y | x in labels :: y in before[x] <==> Edge(lines, labels, i, y, x)
    requires var line := lines[i];
      var at := if line.Label? && line.l in labels then Some(line.l) else Target(line);
      var current := BlockBefore(lines, labels, i);
      (at.Some? ==> at.value in labels) &&
      after == if at.Some? && current.Some? then before[at.value := before[at.value] + {current.value}] else before
    ensures forall x, y | x in labels :: y in after[x] <==> Edge(lines, labels, i + 1, y, x)
  {
    hide BlockBefore;
    forall x, y | x in labels ensures y in after[x] <==> Edge(lines, labels, i + 1, y, x) {
      assert y in after[x] <==> y in before[x] || EdgeAt(lines, labels, i, y, x);
      if Edge(lines, labels, i + 1, y, x) && !EdgeAt(lines, labels, i, y, x) {
        var k: nat :| k < i + 1 && EdgeAt(lines, labels, k, y, x);
        assert k < i;
      }
    }
  }

  lemma {:induction false} NothingGone(graph: map<Node, set<Node>>)
    ensures Without(graph, {}) == graph
  {
    assert forall x | x in graph :: graph[x] - {} == graph[x];
  }

  lemma {:induction false} WithoutMore(graph: map<Node, set<Node>>, gone: set<Node>, x: Node)
    ensures (map y | y in Without(graph, gone) && y != x :: Without(graph, gone)[y] - {x}) == Without(graph, gone + {x})
  {
    var w := Without(graph, gone);
    assert forall y | y in w :: w[y] - {x} == graph[y] - (gone + {x});
  }

  /** A block left with no predecessor but itself belongs to no supported set. */
  lemma {:induction false} NeverSupported(graph: map<Node, set<Node>>, mains: set<Node>, gone: set<Node>, x: Node)
    requires gone <= graph.Keys && x in Without(graph, gone) && x !in mains && Without(graph, gone)[x] <= {x}
    requires forall t :: Supported(graph, mains, t) ==> t !! gone
    ensures forall t :: Supported(graph, mains, t) ==> t !! gone + {x}
  {
    assert forall y | y in graph[x] && y != x :: y in graph[x] - gone ==> y in {x};
  }

  lemma {:induction false} RestIsGreatest(graph: map<Node, set<Node>>, mains: set<Node>, gone: set<Node>)
    requires gone <= graph.Keys
    requires forall t :: Supported(graph, mains, t) ==> t !! gone
    requires forall x | x in Without(graph, gone) && x !in mains :: !(Without(graph, gone)[x] <= {x})
    ensures Greatest(graph, mains, Without(graph, gone).Keys)
    ensures graph.Keys - Without(graph, gone).Keys == gone
  {
    var rest := Without(graph, gone).Keys;
    forall x | x in rest && x !in mains ensures exists y :: y in graph[x] && y != x && (y in rest || y !in graph.Keys) {
      var y :| y in Without(graph, gone)[x] && y !in {x};
      assert y in graph[x] && y !in gone;
    }
  }
}
