/**
 * The search of `analyze` (scripts/tos.py): a best-first expansion of
 * slide sequences from a priority queue of (cost, count, moves, board)
 * entries, used first to choose the starting stone (moves of at most 5)
 * and then in five phases of at most 10 moves each. What each search must
 * find is stated in module SearchSpec.
 */
module Planner {
  import opened Wrappers
  import opened Runestones
  import opened Slides
  import opened Matching
  import opened TosBoards
  import opened SearchSpec

  /** A queue entry: `(cost, count, moveList, board)`. */
  datatype Node = Node(cost: int, count: nat, moves: seq<Move>, board: TosBoard)

  /** The priority queue's order: by cost, ties broken by the insertion counter. */
  predicate NodeBefore(a: Node, b: Node) {
    a.cost < b.cost || (a.cost == b.cost && a.count <= b.count)
  }

  /** The entry `get()` removes: a least one by (cost, count). */
  function MinIndex(q: seq<Node>): (i: nat)
    requires q != []
    ensures i < |q|
    ensures forall j :: 0 <= j < |q| ==> NodeBefore(q[i], q[j])
  {
    if |q| == 1 then 0
    else
      var k := MinIndex(q[1..]);
      if NodeBefore(q[0], q[k + 1]) then 0 else k + 1
  }

  /** A queue entry of a search from `root`: its board is what its moves reach, at the cost they earn. */
  ghost predicate NodeOk(n: Node, kind: CostKind, root: Board, rootCost: int, cap: nat)
    requires ValidBoard(root)
    reads n.board
  {
    && n.board.Valid() && n.board.Filled()
    && |n.moves| <= cap
    && Replay(root, n.moves) == Some(n.board.Value())
    && n.cost == (if n.moves == [] then rootCost else PathCost(kind, root, n.moves))
  }

  // ---------------------------------------------------------------------
  // Termination measure: a node with d moves weighs 5^(cap - d)

  function Pow5(k: nat): (r: nat)
    ensures r >= 1
  {
    if k == 0 then 1 else 5 * Pow5(k - 1)
  }

  function NodeWeight(n: Node, cap: nat): nat {
    if |n.moves| <= cap then Pow5(cap - |n.moves|) else 0
  }

  function Weight(q: seq<Node>, cap: nat): nat {
    if q == [] then 0 else NodeWeight(q[0], cap) + Weight(q[1..], cap)
  }

  lemma {:induction false} WeightConcat(a: seq<Node>, b: seq<Node>, cap: nat)
    ensures Weight(a + b, cap) == Weight(a, cap) + Weight(b, cap)
  {
    if a == [] {
      assert a + b == b;
    } else {
      assert (a + b)[1..] == a[1..] + b;
      WeightConcat(a[1..], b, cap);
    }
  }

  /** Children one move deeper, at most four of them, weigh less than their parent. */
  lemma {:induction false} WeightChildren(children: seq<Node>, d: nat, cap: nat)
    requires d < cap && |children| <= 4
    requires forall i :: 0 <= i < |children| ==> |children[i].moves| == d + 1
    ensures Weight(children, cap) == |children| * Pow5(cap - d - 1)
    ensures Weight(children, cap) < Pow5(cap - d)
  {
    if children != [] {
      WeightChildren(children[1..], d, cap);
    }
  }

  // ---------------------------------------------------------------------
  // One expansion and one search

  /**
   * The inner loop of a search step: for each successor of `n`'s board, in
   * order, the counter is incremented, the successor is evaluated and an
   * entry one move longer is made for it.
   */
  method Expand(n: Node, kind: CostKind, ghost root: Board, ghost rootCost: int, cap: nat, count0: nat)
    returns (children: seq<Node>, count: nat)
    requires ValidBoard(root) && NodeOk(n, kind, root, rootCost, cap) && |n.moves| < cap
    ensures count == count0 + |children| && |children| <= 4
    ensures forall i :: 0 <= i < |children| ==>
      NodeOk(children[i], kind, root, rootCost, cap) && |children[i].moves| == |n.moves| + 1 &&
      children[i].moves[..|n.moves|] == n.moves && children[i].count == count0 + i + 1
    ensures forall m :: Slide(n.board.Value(), m).Some? ==>
      exists i :: 0 <= i < |children| && children[i].moves == n.moves + [m]
  {
    var succ := n.board.GetSuccessorList();
    ghost var v := n.board.Value();
    assert |succ| <= 4 by {
      assert |succ| == |Successors(v)| <= |AllMoves|;
    }
    assert SuccOk(succ, v);
    children, count := MakeChildren(n, kind, root, rootCost, cap, count0, succ);
    ExpandDone(children, n, succ, kind, root, rootCost, cap, count0);
  }

  /** The loop of Expand over the successor list: one entry per successor, in order. */
  method MakeChildren(n: Node, kind: CostKind, ghost root: Board, ghost rootCost: int, cap: nat, count0: nat,
                      succ: seq<(TosBoard, Move)>)
    returns (children: seq<Node>, count: nat)
    requires ValidBoard(root) && NodeOk(n, kind, root, rootCost, cap) && |n.moves| < cap
    requires SuccOk(succ, n.board.Value())
    ensures count == count0 + |children| && |children| == |succ|
    ensures ChildrenOk(children, n, succ, kind, root, rootCost, cap, count0)
  {
    children := [];
    count := count0;
    for j := 0 to |succ|
      invariant SuccOk(succ, n.board.Value()) && NodeOk(n, kind, root, rootCost, cap)
      invariant count == count0 + j && |children| == j
      invariant ChildrenOk(children, n, succ, kind, root, rootCost, cap, count0)
    {
      children := AddChild(n, kind, root, rootCost, cap, count0, succ, children);
      count := count + 1;
    }
  }

  /**
   * One round of that loop: the counter is incremented, the next successor
   * is evaluated and its entry is appended.
   */
  method AddChild(n: Node, kind: CostKind, ghost root: Board, ghost rootCost: int, cap: nat, count0: nat,
                  succ: seq<(TosBoard, Move)>, children0: seq<Node>)
    returns (children: seq<Node>)
    requires ValidBoard(root) && NodeOk(n, kind, root, rootCost, cap) && |n.moves| < cap
    requires SuccOk(succ, n.board.Value()) && |children0| < |succ|
    requires ChildrenOk(children0, n, succ, kind, root, rootCost, cap, count0)
    ensures SuccOk(succ, n.board.Value()) && NodeOk(n, kind, root, rootCost, cap)
    ensures |children| == |children0| + 1
    ensures ChildrenOk(children, n, succ, kind, root, rootCost, cap, count0)
  {
    var j := |children0|;
    var (newBoard, move) := succ[j];
    var e := newBoard.Evaluate();
    var newCost := StepCost(kind, e, |n.moves|);
    var child := Node(newCost, count0 + j + 1, n.moves + [move], newBoard);
    ChildOk(n, kind, root, rootCost, cap, succ, j, child);
    ChildrenAppend(children0, child, n, succ, kind, root, rootCost, cap, count0);
    children := children0 + [child];
  }

  /** The successor list of `v`, as `getSuccessorList` returns it. */
  ghost predicate SuccOk(succ: seq<(TosBoard, Move)>, v: Board)
    reads set i | 0 <= i < |succ| :: succ[i].0
  {
    && ValidBoard(v)
    && |succ| == |Successors(v)|
    && forall i :: 0 <= i < |succ| ==>
      succ[i].0.Valid() && succ[i].0.Filled() && (succ[i].0.Value(), succ[i].1) == Successors(v)[i]
  }

  /** The entries made so far for the successors of `n`, one per successor in order. */
  ghost predicate ChildrenOk(children: seq<Node>, n: Node, succ: seq<(TosBoard, Move)>, kind: CostKind,
                             root: Board, rootCost: int, cap: nat, count0: nat)
    requires ValidBoard(root)
    reads set i | 0 <= i < |children| :: children[i].board
  {
    && |children| <= |succ|
    && forall i :: 0 <= i < |children| ==>
      NodeOk(children[i], kind, root, rootCost, cap) && children[i].moves == n.moves + [succ[i].1] &&
      children[i].count == count0 + i + 1
  }

  lemma ChildrenAppend(children: seq<Node>, child: Node, n: Node, succ: seq<(TosBoard, Move)>, kind: CostKind,
                       root: Board, rootCost: int, cap: nat, count0: nat)
    requires ValidBoard(root) && ChildrenOk(children, n, succ, kind, root, rootCost, cap, count0)
    requires |children| < |succ| && NodeOk(child, kind, root, rootCost, cap)
    requires child.moves == n.moves + [succ[|children|].1] && child.count == count0 + |children| + 1
    ensures ChildrenOk(children + [child], n, succ, kind, root, rootCost, cap, count0)
  {
    var c := children + [child];
    forall i | 0 <= i < |c|
      ensures NodeOk(c[i], kind, root, rootCost, cap) && c[i].moves == n.moves + [succ[i].1]
      ensures c[i].count == count0 + i + 1
    {
      if i < |children| {
        assert c[i] == children[i];
      }
    }
  }

  /** Expand's postcondition from its loop's invariant. */
  lemma ExpandDone(children: seq<Node>, n: Node, succ: seq<(TosBoard, Move)>, kind: CostKind,
                   root: Board, rootCost: int, cap: nat, count0: nat)
    requires ValidBoard(root) && NodeOk(n, kind, root, rootCost, cap)
    requires SuccOk(succ, n.board.Value()) && |children| == |succ|
    requires ChildrenOk(children, n, succ, kind, root, rootCost, cap, count0)
    ensures forall i :: 0 <= i < |children| ==>
      NodeOk(children[i], kind, root, rootCost, cap) && |children[i].moves| == |n.moves| + 1 &&
      children[i].moves[..|n.moves|] == n.moves && children[i].count == count0 + i + 1
    ensures forall m :: Slide(n.board.Value(), m).Some? ==>
      exists i :: 0 <= i < |children| && children[i].moves == n.moves + [m]
  {
    var v := n.board.Value();
    forall i | 0 <= i < |children| ensures children[i].moves[..|n.moves|] == n.moves {
      assert children[i].moves == n.moves + [succ[i].1];
    }
    forall m | Slide(v, m).Some?
      ensures exists i :: 0 <= i < |children| && children[i].moves == n.moves + [m]
    {
      var i := SuccessorIndex(v, m);
      assert children[i].moves == n.moves + [m];
    }
  }

  /** Every legal slide of a board is one of its successors. */
  lemma SuccessorIndex(v: Board, m: Move) returns (i: int)
    requires ValidBoard(v) && Slide(v, m).Some?
    ensures 0 <= i < |Successors(v)| && Successors(v)[i].1 == m
  {
    SuccessorsExact(v);
    assert (Slide(v, m).value, m) in Successors(v);
    i :| 0 <= i < |Successors(v)| && Successors(v)[i] == (Slide(v, m).value, m);
  }

  /** The entry made for successor j of `n` is a correct entry one move deeper. */
  lemma ChildOk(n: Node, kind: CostKind, root: Board, rootCost: int, cap: nat,
                succ: seq<(TosBoard, Move)>, j: int, child: Node)
    requires ValidBoard(root) && NodeOk(n, kind, root, rootCost, cap) && |n.moves| < cap
    requires 0 <= j < |succ| == |Successors(n.board.Value())|
    requires succ[j].0.Valid() && succ[j].0.Filled()
    requires (succ[j].0.Value(), succ[j].1) == Successors(n.board.Value())[j]
    requires child.board == succ[j].0 && child.moves == n.moves + [succ[j].1]
    requires child.cost == StepCost(kind, EvalSpec(succ[j].0.Value()), |n.moves|)
    ensures NodeOk(child, kind, root, rootCost, cap)
  {
    var v := n.board.Value();
    var m := succ[j].1;
    SuccessorsExact(v);
    assert Successors(v)[j] in Successors(v);
    assert Slide(v, m) == Some(succ[j].0.Value());
    ReplayAppend(root, n.moves, m);
  }

  /** Every tree path cheaper than `bound` extends the moves of some queued entry. */
  ghost predicate Covered(kind: CostKind, root: Board, cap: nat, q: seq<Node>, bound: int)
    requires ValidBoard(root)
  {
    forall p :: IsTreePath(root, p, cap) && PathCost(kind, root, p) < bound ==>
      exists k :: 0 <= k < |q| && q[k].moves <= p
  }

  /**
   * Drains the queue from a single entry for `root`: pops the least entry,
   * keeps it as the best when its cost is below the best so far, and
   * expands it unless its move list already has `cap` moves. The result is
   * the least cost of any node of the tree, or `minCost0` unchanged with
   * the root as best when no node is cheaper.
   */
  method Drain(root: TosBoard, rootCost: int, rootCount: nat, kind: CostKind, cap: nat, minCost0: int)
    returns (minCost: int, bestMoves: seq<Move>, bestBoard: TosBoard, count: nat)
    requires root.Valid() && root.Filled() && minCost0 <= rootCost
    ensures count >= rootCount && minCost <= minCost0
    ensures bestBoard.Valid() && bestBoard.Filled() && Replay(root.Value(), bestMoves) == Some(bestBoard.Value())
    ensures forall p :: IsTreePath(root.Value(), p, cap) ==> minCost <= PathCost(kind, root.Value(), p)
    ensures minCost < minCost0 ==>
      IsTreePath(root.Value(), bestMoves, cap) && PathCost(kind, root.Value(), bestMoves) == minCost
    ensures minCost == minCost0 ==> bestMoves == [] && bestBoard == root
  {
    ghost var v := root.Value();
    minCost, bestMoves, bestBoard, count := minCost0, [], root, rootCount;
    var q := [Node(rootCost, rootCount, [], root)];
    while q != []
      invariant forall k :: 0 <= k < |q| ==> NodeOk(q[k], kind, v, rootCost, cap)
      invariant count >= rootCount && minCost <= minCost0
      invariant bestBoard.Valid() && bestBoard.Filled() && Replay(v, bestMoves) == Some(bestBoard.Value())
      invariant minCost < minCost0 ==> IsTreePath(v, bestMoves, cap) && PathCost(kind, v, bestMoves) == minCost
      invariant minCost == minCost0 ==> bestMoves == [] && bestBoard == root
      invariant Covered(kind, v, cap, q, minCost)
      decreases Weight(q, cap)
    {
      q, minCost, bestMoves, bestBoard, count :=
        DrainStep(q, minCost, bestMoves, bestBoard, count, root, v, rootCost, kind, cap, minCost0);
    }
  }

  /** One round of Drain's loop: `get()`, the comparison with the best so far, and the expansion. */
  method DrainStep(q0: seq<Node>, min0: int, bestMoves0: seq<Move>, bestBoard0: TosBoard, count0: nat,
                   root: TosBoard, ghost v: Board, ghost rootCost: int, kind: CostKind, cap: nat, ghost minCost0: int)
    returns (q: seq<Node>, minCost: int, bestMoves: seq<Move>, bestBoard: TosBoard, count: nat)
    requires ValidBoard(v) && q0 != [] && minCost0 <= rootCost
    requires forall k :: 0 <= k < |q0| ==> NodeOk(q0[k], kind, v, rootCost, cap)
    requires min0 <= minCost0
    requires bestBoard0.Valid() && bestBoard0.Filled() && Replay(v, bestMoves0) == Some(bestBoard0.Value())
    requires min0 < minCost0 ==> IsTreePath(v, bestMoves0, cap) && PathCost(kind, v, bestMoves0) == min0
    requires min0 == minCost0 ==> bestMoves0 == [] && bestBoard0 == root
    requires Covered(kind, v, cap, q0, min0)
    ensures forall k :: 0 <= k < |q| ==> NodeOk(q[k], kind, v, rootCost, cap)
    ensures count >= count0 && minCost <= min0
    ensures bestBoard.Valid() && bestBoard.Filled() && Replay(v, bestMoves) == Some(bestBoard.Value())
    ensures minCost < minCost0 ==> IsTreePath(v, bestMoves, cap) && PathCost(kind, v, bestMoves) == minCost
    ensures minCost == minCost0 ==> bestMoves == [] && bestBoard == root
    ensures Covered(kind, v, cap, q, minCost)
    ensures Weight(q, cap) < Weight(q0, cap)
  {
    minCost, bestMoves, bestBoard := min0, bestMoves0, bestBoard0;
    var i := MinIndex(q0);
    var n := q0[i];
    assert NodeOk(n, kind, v, rootCost, cap);
    if n.cost < minCost {
      minCost, bestMoves, bestBoard := n.cost, n.moves, n.board;
    }
    q, count := Requeue(q0, i, kind, v, rootCost, cap, count0, min0, minCost);
  }

  /** The rest of a round: entry i leaves the queue and, below the depth cap, its children join the back. */
  method Requeue(q0: seq<Node>, i: int, kind: CostKind, ghost v: Board, ghost rootCost: int, cap: nat, count0: nat,
                 ghost min0: int, ghost minCost: int)
    returns (q: seq<Node>, count: nat)
    requires ValidBoard(v) && 0 <= i < |q0|
    requires forall k :: 0 <= k < |q0| ==> NodeOk(q0[k], kind, v, rootCost, cap)
    requires Covered(kind, v, cap, q0, min0) && minCost <= min0 && minCost <= q0[i].cost
    ensures forall k :: 0 <= k < |q| ==> NodeOk(q[k], kind, v, rootCost, cap)
    ensures |q0| - 1 <= |q| && q[..|q0| - 1] == q0[..i] + q0[i + 1..] && count >= count0
    ensures Covered(kind, v, cap, q, minCost)
    ensures Weight(q, cap) < Weight(q0, cap)
  {
    var n := q0[i];
    assert NodeOk(n, kind, v, rootCost, cap);
    var children: seq<Node> := [];
    count := count0;
    if |n.moves| < cap {
      children, count := Expand(n, kind, v, rootCost, cap, count);
    }
    q := q0[..i] + q0[i + 1..] + children;
    CoverStep(kind, v, rootCost, cap, q0, i, min0, minCost, children, n.board.Value(), q);
    WeightStep(q0, i, children, cap, q);
    NodesOkStep(q0, i, children, kind, v, rootCost, cap, q);
    assert q[..|q0| - 1] == q0[..i] + q0[i + 1..];
  }

  /** The queue after a pop and a push still holds only correct entries. */
  lemma NodesOkStep(q0: seq<Node>, i: int, children: seq<Node>, kind: CostKind, v: Board, rootCost: int, cap: nat,
                    q: seq<Node>)
    requires ValidBoard(v) && 0 <= i < |q0| && q == q0[..i] + q0[i + 1..] + children
    requires forall k :: 0 <= k < |q0| ==> NodeOk(q0[k], kind, v, rootCost, cap)
    requires forall k :: 0 <= k < |children| ==> NodeOk(children[k], kind, v, rootCost, cap)
    ensures forall k :: 0 <= k < |q| ==> NodeOk(q[k], kind, v, rootCost, cap)
  {
    forall k | 0 <= k < |q| ensures NodeOk(q[k], kind, v, rootCost, cap) {
      var j := QueueSource(q0, i, children, q, k);
      if j < |q0| {
        assert NodeOk(q0[j], kind, v, rootCost, cap);
      } else {
        assert NodeOk(children[j - |q0|], kind, v, rootCost, cap);
      }
    }
  }

  /** Where entry k of the new queue comes from: entry j of the old queue, or child j - |q0| of the popped one. */
  lemma QueueSource(q0: seq<Node>, i: int, children: seq<Node>, q: seq<Node>, k: int) returns (j: int)
    requires 0 <= i < |q0| && q == q0[..i] + q0[i + 1..] + children && 0 <= k < |q|
    ensures 0 <= j < |q0| + |children| && j != i
    ensures q[k] == (if j < |q0| then q0[j] else children[j - |q0|])
  {
    j := if k < i then k else k + 1;
  }

  /** Popping entry i and pushing its children keeps every cheaper tree path covered. */
  lemma CoverStep(kind: CostKind, root: Board, rootCost: int, cap: nat, q0: seq<Node>, i: int,
                  minOld: int, minNew: int, children: seq<Node>, nv: Board, q: seq<Node>)
    requires ValidBoard(root) && 0 <= i < |q0| && q == q0[..i] + q0[i + 1..] + children
    requires Covered(kind, root, cap, q0, minOld)
    requires minNew <= minOld && minNew <= q0[i].cost
    requires Replay(root, q0[i].moves) == Some(nv)
    requires q0[i].moves != [] ==> q0[i].cost == PathCost(kind, root, q0[i].moves)
    requires |q0[i].moves| < cap ==> forall m :: Slide(nv, m).Some? ==>
      exists k :: 0 <= k < |children| && children[k].moves == q0[i].moves + [m]
    ensures Covered(kind, root, cap, q, minNew)
  {
    forall p | IsTreePath(root, p, cap) && PathCost(kind, root, p) < minNew
      ensures exists k :: 0 <= k < |q| && q[k].moves <= p
    {
      var k0 :| 0 <= k0 < |q0| && q0[k0].moves <= p;
      if k0 == i {
        var c := CoverChild(kind, root, cap, q0[i], minNew, children, nv, p);
        var k := ChildIndex(q0, i, children, q, c);
        assert q[k].moves <= p;
      } else {
        var k := KeptIndex(q0, i, children, q, k0);
        assert q[k].moves <= p;
      }
    }
  }

  /** Where an old entry other than the popped one sits in the new queue. */
  lemma KeptIndex(q0: seq<Node>, i: int, children: seq<Node>, q: seq<Node>, j: int) returns (k: int)
    requires 0 <= i < |q0| && q == q0[..i] + q0[i + 1..] + children && 0 <= j < |q0| && j != i
    ensures 0 <= k < |q| && q[k] == q0[j]
  {
    k := if j < i then j else j - 1;
  }

  /** Where child c of the popped entry sits in the new queue. */
  lemma ChildIndex(q0: seq<Node>, i: int, children: seq<Node>, q: seq<Node>, c: int) returns (k: int)
    requires 0 <= i < |q0| && q == q0[..i] + q0[i + 1..] + children && 0 <= c < |children|
    ensures 0 <= k < |q| && q[k] == children[c]
  {
    k := |q0| - 1 + c;
  }

  /** A cheap tree path through a popped entry continues through one of the entry's children. */
  lemma CoverChild(kind: CostKind, root: Board, cap: nat, n: Node, minNew: int, children: seq<Node>, nv: Board,
                   p: seq<Move>) returns (k: int)
    requires ValidBoard(root) && IsTreePath(root, p, cap) && PathCost(kind, root, p) < minNew
    requires n.moves <= p && minNew <= n.cost
    requires Replay(root, n.moves) == Some(nv)
    requires n.moves != [] ==> n.cost == PathCost(kind, root, n.moves)
    requires |n.moves| < cap ==> forall m :: Slide(nv, m).Some? ==>
      exists k :: 0 <= k < |children| && children[k].moves == n.moves + [m]
    ensures 0 <= k < |children| && children[k].moves <= p
  {
    var d := |n.moves|;
    assert n.moves != p;
    var m := p[d];
    ghost var next := n.moves + [m];
    assert next == p[..d + 1] && next <= p;
    ReplayPrefix(root, p, next);
    ReplayAppend(root, n.moves, m);
    assert Slide(nv, m).Some?;
    k :| 0 <= k < |children| && children[k].moves == next;
  }

  /** Popping an entry and pushing its children decreases the queue's weight. */
  lemma WeightStep(q0: seq<Node>, i: int, children: seq<Node>, cap: nat, q: seq<Node>)
    requires 0 <= i < |q0| && q == q0[..i] + q0[i + 1..] + children
    requires |q0[i].moves| <= cap && |children| <= 4
    requires children != [] ==> |q0[i].moves| < cap
    requires forall k :: 0 <= k < |children| ==> |children[k].moves| == |q0[i].moves| + 1
    ensures Weight(q, cap) < Weight(q0, cap)
  {
    var a, b := q0[..i], q0[i + 1..];
    assert q0 == a + ([q0[i]] + b);
    WeightConcat(a, [q0[i]] + b, cap);
    WeightConcat([q0[i]], b, cap);
    WeightConcat(a, b, cap);
    WeightConcat(a + b, children, cap);
    assert Weight([q0[i]] + b, cap) == NodeWeight(q0[i], cap) + Weight(b, cap) by {
      assert ([q0[i]] + b)[1..] == b;
    }
    if children != [] {
      WeightChildren(children, |q0[i].moves|, cap);
    }
  }

  // ---------------------------------------------------------------------
  // analyze

  /**
   * The first part of analyze: a search of at most 5 moves from every cell in
   * row-major order, with one running minimum. The start chosen is the first
   * cell whose tree reaches the least cost over all cells; the board is left
   * with its finger there.
   */
  method ChooseStart(initBoard: TosBoard) returns (start: Pos, ghost startCost: int)
    requires initBoard.Valid() && initBoard.Filled()
    modifies initBoard
    ensures initBoard.Valid() && initBoard.Filled() && initBoard.runestones == old(initBoard.runestones)
    ensures InBounds(start) && initBoard.currentPosition == start && initBoard.previousPosition == start
    ensures exists p :: FirstBest(initBoard.Value().grid, start, p, startCost)
    ensures forall c :: InBounds(c) ==> NoneCheaper(StartSearch, StartBoard(initBoard.Value().grid, c), 5, startCost)
  {
    ghost var g := initBoard.Value().grid;
    var minCost, bestRowIdx, bestColIdx := Sentinel, 0, 0;
    ghost var bestPath: seq<Move> := [];
    var rowIdx := 0;
    while rowIdx < Rows
      invariant 0 <= rowIdx <= Rows
      invariant initBoard.Valid() && initBoard.Filled() && initBoard.runestones == old(initBoard.runestones)
      invariant initBoard.Value().grid == g
      invariant StartState(g, Pos(rowIdx, 0), minCost, Pos(bestRowIdx, bestColIdx), bestPath)
    {
      minCost, bestRowIdx, bestColIdx, bestPath :=
        SearchRow(initBoard, g, rowIdx, minCost, bestRowIdx, bestColIdx, bestPath);
      rowIdx := rowIdx + 1;
    }
    start, startCost := Pos(bestRowIdx, bestColIdx), minCost;
    StartEnd(g, minCost, start, bestPath);
    initBoard.SetCurrentPosition(start);
    assert initBoard.Value().grid == g;
    assert FirstBest(initBoard.Value().grid, start, bestPath, startCost);
  }

  /** One row of ChooseStart: every cell of row `rowIdx`, left to right. */
  method SearchRow(initBoard: TosBoard, ghost g: Grid, rowIdx: int,
                   minCost0: int, bestRowIdx0: int, bestColIdx0: int, ghost bestPath0: seq<Move>)
    returns (minCost: int, bestRowIdx: int, bestColIdx: int, ghost bestPath: seq<Move>)
    requires initBoard.Valid() && initBoard.Filled() && initBoard.Value().grid == g
    requires 0 <= rowIdx < Rows
    requires StartState(g, Pos(rowIdx, 0), minCost0, Pos(bestRowIdx0, bestColIdx0), bestPath0)
    modifies initBoard
    ensures initBoard.Valid() && initBoard.Filled() && initBoard.runestones == old(initBoard.runestones)
    ensures StartState(g, Pos(rowIdx + 1, 0), minCost, Pos(bestRowIdx, bestColIdx), bestPath)
  {
    minCost, bestRowIdx, bestColIdx, bestPath := minCost0, bestRowIdx0, bestColIdx0, bestPath0;
    var colIdx := 0;
    while colIdx < Cols
      invariant 0 <= colIdx <= Cols
      invariant initBoard.Valid() && initBoard.Filled() && initBoard.runestones == old(initBoard.runestones)
      invariant initBoard.Value().grid == g
      invariant StartState(g, Pos(rowIdx, colIdx), minCost, Pos(bestRowIdx, bestColIdx), bestPath)
    {
      minCost, bestRowIdx, bestColIdx, bestPath :=
        SearchCell(initBoard, g, rowIdx, colIdx, minCost, bestRowIdx, bestColIdx, bestPath);
      colIdx := colIdx + 1;
    }
    StartWrap(g, rowIdx, minCost, Pos(bestRowIdx, bestColIdx), bestPath);
  }

  /** One cell of ChooseStart: put the finger there, search its tree, keep the cell if it is strictly cheaper. */
  method SearchCell(initBoard: TosBoard, ghost g: Grid, rowIdx: int, colIdx: int,
                    minCost0: int, bestRowIdx0: int, bestColIdx0: int, ghost bestPath0: seq<Move>)
    returns (minCost: int, bestRowIdx: int, bestColIdx: int, ghost bestPath: seq<Move>)
    requires initBoard.Valid() && initBoard.Filled() && initBoard.Value().grid == g
    requires InBounds(Pos(rowIdx, colIdx))
    requires StartState(g, Pos(rowIdx, colIdx), minCost0, Pos(bestRowIdx0, bestColIdx0), bestPath0)
    modifies initBoard
    ensures initBoard.Valid() && initBoard.Filled() && initBoard.runestones == old(initBoard.runestones)
    ensures StartState(g, Pos(rowIdx, colIdx + 1), minCost, Pos(bestRowIdx, bestColIdx), bestPath)
  {
    minCost, bestRowIdx, bestColIdx, bestPath := minCost0, bestRowIdx0, bestColIdx0, bestPath0;
    initBoard.SetCurrentPosition(Pos(rowIdx, colIdx));
    assert initBoard.Value() == StartBoard(g, Pos(rowIdx, colIdx));
    var newMin, moves, _, _ := Drain(initBoard, Sentinel, 0, StartSearch, 5, minCost);
    StartStep(g, Pos(rowIdx, colIdx), minCost, Pos(bestRowIdx, bestColIdx), bestPath, newMin, moves);
    if newMin < minCost {
      minCost, bestRowIdx, bestColIdx := newMin, rowIdx, colIdx;
      bestPath := moves;
    }
  }

  /** The running minimum of ChooseStart once the cells before k are searched. */
  ghost predicate StartState(g: Grid, k: Pos, minCost: int, best: Pos, bestPath: seq<Move>)
    requires WellFormed(g)
  {
    && minCost <= Sentinel
    && SearchedBefore(g, k, minCost)
    && (minCost < Sentinel ==> FirstBest(g, best, bestPath, minCost) && Before(best, k))
    && (minCost == Sentinel ==> best == Pos(0, 0) && !Before(Pos(0, 0), k))
  }

  lemma NoneCheaperLower(kind: CostKind, root: Board, cap: nat, c: int, d: int)
    requires ValidBoard(root) && d <= c && NoneCheaper(kind, root, cap, c)
    ensures NoneCheaper(kind, root, cap, d)
  {
  }

  /** A searched cell's tree has a node below the start value, so the minimum drops below it. */
  lemma StartBelowSentinel(g: Grid, k: Pos, c: int)
    requires WellFormed(g) && InBounds(k) && NoneCheaper(StartSearch, StartBoard(g, k), 5, c)
    ensures c < Sentinel
  {
    var m := StartHasMove(g, k);
    CostBelowSentinel(StartSearch, EvalSpec(Replay(StartBoard(g, k), [m]).value), 0);
    assert IsTreePath(StartBoard(g, k), [m], 5);
  }

  /** Searching cell k extends the searched cells by one. */
  lemma SearchedStep(g: Grid, k: Pos, c: int, d: int)
    requires WellFormed(g) && InBounds(k) && d <= c
    requires SearchedBefore(g, k, c) && NoneCheaper(StartSearch, StartBoard(g, k), 5, d)
    ensures SearchedBefore(g, Pos(k.r, k.c + 1), d)
  {
    forall x | InBounds(x) && Before(x, Pos(k.r, k.c + 1))
      ensures NoneCheaper(StartSearch, StartBoard(g, x), 5, d)
    {
      if x != k {
        assert Before(x, k);
        NoneCheaperLower(StartSearch, StartBoard(g, x), 5, c, d);
      }
    }
  }

  lemma StartStep(g: Grid, k: Pos, minCost: int, best: Pos, bestPath: seq<Move>, newMin: int, moves: seq<Move>)
    requires WellFormed(g) && InBounds(k)
    requires StartState(g, k, minCost, best, bestPath)
    requires newMin <= minCost
    requires NoneCheaper(StartSearch, StartBoard(g, k), 5, newMin)
    requires newMin < minCost ==>
      (IsTreePath(StartBoard(g, k), moves, 5) && PathCost(StartSearch, StartBoard(g, k), moves) == newMin)
    ensures newMin < Sentinel
    ensures newMin < minCost ==> StartState(g, Pos(k.r, k.c + 1), newMin, k, moves)
    ensures newMin == minCost ==> StartState(g, Pos(k.r, k.c + 1), minCost, best, bestPath)
  {
    StartBelowSentinel(g, k, newMin);
    SearchedStep(g, k, minCost, newMin);
    if newMin < minCost {
      SearchedLower(g, k, minCost, newMin + 1);
    }
  }

  lemma SearchedLower(g: Grid, k: Pos, c: int, d: int)
    requires WellFormed(g) && d <= c && SearchedBefore(g, k, c)
    ensures SearchedBefore(g, k, d)
  {
    forall x | InBounds(x) && Before(x, k) ensures NoneCheaper(StartSearch, StartBoard(g, x), 5, d) {
      NoneCheaperLower(StartSearch, StartBoard(g, x), 5, c, d);
    }
  }

  lemma StartWrap(g: Grid, r: int, minCost: int, best: Pos, bestPath: seq<Move>)
    requires WellFormed(g) && StartState(g, Pos(r, Cols), minCost, best, bestPath)
    ensures StartState(g, Pos(r + 1, 0), minCost, best, bestPath)
  {
    forall x | InBounds(x) && Before(x, Pos(r + 1, 0)) ensures NoneCheaper(StartSearch, StartBoard(g, x), 5, minCost) {
      assert Before(x, Pos(r, Cols));
    }
  }

  lemma StartEnd(g: Grid, minCost: int, best: Pos, bestPath: seq<Move>)
    requires WellFormed(g) && StartState(g, Pos(Rows, 0), minCost, best, bestPath)
    ensures minCost < Sentinel
    ensures FirstBest(g, best, bestPath, minCost)
    ensures forall x :: InBounds(x) ==> NoneCheaper(StartSearch, StartBoard(g, x), 5, minCost)
  {
    assert Before(Pos(0, 0), Pos(Rows, 0));
    StartBelowSentinel(g, Pos(0, 0), minCost);
    forall x | InBounds(x) ensures NoneCheaper(StartSearch, StartBoard(g, x), 5, minCost) {
      assert Before(x, Pos(Rows, 0));
    }
  }

  // ---------------------------------------------------------------------
  // The phases of the move search

  lemma PhaseChainStep(boards: seq<Board>, phases: seq<seq<Move>>, moves: seq<Move>, next: Board)
    requires PhaseChain(boards, phases)
    requires PhaseStep(|phases| + 1, boards[|phases|], moves, next)
    ensures PhaseChain(boards + [next], phases + [moves])
    ensures (boards + [next])[0] == boards[0] && (boards + [next])[|phases| + 1] == next
    ensures Flatten(phases + [moves]) == Flatten(phases) + moves
  {
    var boards', phases' := boards + [next], phases + [moves];
    assert boards'[..|phases| + 1] == boards && phases'[..|phases|] == phases;
    assert boards'[|phases|] == boards[|phases|] && boards'[|phases| + 1] == next && phases'[|phases|] == moves;
  }

  /** Along a phase chain, the joined moves replay from the first board to the last, 10 moves a phase at most. */
  lemma {:induction false} PhaseChainReplay(boards: seq<Board>, phases: seq<seq<Move>>)
    requires PhaseChain(boards, phases) && ValidBoard(boards[0])
    ensures Replay(boards[0], Flatten(phases)) == Some(boards[|phases|])
    ensures |Flatten(phases)| <= 10 * |phases|
    decreases |phases|
  {
    if phases != [] {
      var n := |phases| - 1;
      PhaseChainReplay(boards[..n + 1], phases[..n]);
      ReplayConcat(boards[0], Flatten(phases[..n]), phases[n]);
      assert PhaseStep(n + 1, boards[n], phases[n], boards[n + 1]);
    }
  }

  /**
   * The second part of analyze: five phases of at most 10 moves each, every
   * phase searching from the best board of the previous one with its
   * rescored cost as the bar to beat; the move lists are concatenated. The
   * insertion counter runs on across the phases.
   */
  method RunPhases(initBoard: TosBoard)
    returns (bestBoard: TosBoard, finalMoveList: seq<Move>, ghost boards: seq<Board>, ghost phases: seq<seq<Move>>)
    requires initBoard.Valid() && initBoard.Filled()
    ensures bestBoard.Valid() && bestBoard.Filled()
    ensures |phases| == Phases && PhaseChain(boards, phases)
    ensures boards[0] == initBoard.Value() && boards[Phases] == bestBoard.Value()
    ensures finalMoveList == Flatten(phases)
  {
    var minCost, count := Sentinel, 0;
    bestBoard, finalMoveList := initBoard, [];
    boards, phases := [initBoard.Value()], [];
    var it := 1;
    while it <= Phases
      invariant 1 <= it <= Phases + 1
      invariant bestBoard.Valid() && bestBoard.Filled()
      invariant |phases| == it - 1 && PhaseChain(boards, phases)
      invariant boards[0] == initBoard.Value() && boards[it - 1] == bestBoard.Value()
      invariant minCost == PhaseRootCost(it, bestBoard.Value())
      invariant finalMoveList == Flatten(phases)
    {
      var moves, board;
      moves, board, minCost, count := RunPhase(it, bestBoard, minCost, count);
      PhaseChainStep(boards, phases, moves, board.Value());
      boards, phases := boards + [board.Value()], phases + [moves];
      finalMoveList := finalMoveList + moves;
      bestBoard := board;
      it := it + 1;
    }
  }

  /** What Drain promises is the phase's result. */
  lemma DrainedPhase(it: int, v: Board, rootCost: int, newMin: int, moves: seq<Move>)
    requires ValidBoard(v) && newMin <= rootCost
    requires forall p :: IsTreePath(v, p, 10) ==> newMin <= PathCost(Phase(it), v, p)
    requires newMin < rootCost ==> IsTreePath(v, moves, 10) && PathCost(Phase(it), v, moves) == newMin
    requires newMin == rootCost ==> moves == []
    ensures PhaseResult(it, v, rootCost, moves)
  {
  }

  /** One phase: the search from `bestBoard` at `minCost`, then the rescoring of the board it ends on. */
  method RunPhase(it: int, bestBoard: TosBoard, minCost: int, count0: nat)
    returns (moves: seq<Move>, board: TosBoard, nextCost: int, count: nat)
    requires 1 <= it <= Phases
    requires bestBoard.Valid() && bestBoard.Filled() && minCost == PhaseRootCost(it, bestBoard.Value())
    ensures board.Valid() && board.Filled() && count >= count0
    ensures PhaseStep(it, bestBoard.Value(), moves, board.Value())
    ensures nextCost == PhaseRootCost(it + 1, board.Value())
  {
    var newMin;
    newMin, moves, board, count := Drain(bestBoard, minCost, count0, Phase(it), 10, minCost);
    DrainedPhase(it, bestBoard.Value(), minCost, newMin, moves);
    var e := board.Evaluate();
    nextCost := Rescore(it, e);
    // the next phase is seeded with the cost its own root scores at depth 0
    RescoreIsNextPhaseCost(it, e);
    assert nextCost == StepCost(Phase(it + 1), EvalSpec(board.Value()), 0);
  }

  /**
   * analyze: choose the start cell, put the finger there, then run the
   * phases from that board. The result's moves replay from the chosen start
   * to the returned board, at most 50 of them.
   */
  method Analyze(initBoard: TosBoard)
    returns (bestBoard: TosBoard, finalMoveList: seq<Move>,
             ghost start: Pos, ghost startCost: int, ghost boards: seq<Board>, ghost phases: seq<seq<Move>>)
    requires initBoard.Valid() && initBoard.Filled()
    modifies initBoard
    ensures initBoard.Valid() && initBoard.Filled() && initBoard.runestones == old(initBoard.runestones)
    ensures InBounds(start) && initBoard.Value() == StartBoard(initBoard.Value().grid, start)
    ensures exists p :: FirstBest(initBoard.Value().grid, start, p, startCost)
    ensures forall c :: InBounds(c) ==> NoneCheaper(StartSearch, StartBoard(initBoard.Value().grid, c), 5, startCost)
    ensures bestBoard.Valid() && bestBoard.Filled()
    ensures |phases| == Phases && PhaseChain(boards, phases)
    ensures boards[0] == initBoard.Value() && boards[Phases] == bestBoard.Value()
    ensures finalMoveList == Flatten(phases) && |finalMoveList| <= 10 * Phases
    ensures Replay(initBoard.Value(), finalMoveList) == Some(bestBoard.Value())
  {
    start, startCost := ChooseStart(initBoard);
    bestBoard, finalMoveList, boards, phases := RunPhases(initBoard);
    PhaseChainReplay(boards, phases);
  }
}
