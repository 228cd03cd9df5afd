/**
 * The three passes of TosBoard.evaluate (scripts/tos.py) over its local
 * `removed` grid: marking runs of three, and flood-filling each combo
 * away while counting it.
 */
module Scan {
  import opened Wrappers
  import opened Runestones
  import opened Matching

  /** A grid of `removed` entries shaped like the board. */
  predicate Shaped(removed: array2<Option<StoneType>>)
  {
    removed.Length0 == Rows && removed.Length1 == Cols
  }

  /**
   * Builds `removed`: a horizontal pass over every row, then a vertical pass
   * over every column, each writing the type of every run of three equal
   * stones into the three cells it covers.
   */
  method MarkRuns(g: Grid) returns (removed: array2<Option<StoneType>>)
    requires WellFormed(g)
    ensures fresh(removed) && Shaped(removed)
    ensures forall r, c :: 0 <= r < Rows && 0 <= c < Cols ==> removed[r, c] == MarkOf(g, Pos(r, c))
  {
    removed := new Option<StoneType>[Rows, Cols]((r, c) => None);
    var rowIdx := 0;
    while rowIdx < Rows
      invariant 0 <= rowIdx <= Rows
      invariant forall r, c :: 0 <= r < Rows && 0 <= c < Cols ==>
        removed[r, c] == (if r < rowIdx && HCovered(g, r, c, Cols - 2) then Some(g[r][c]) else None)
    {
      MarkRow(g, removed, rowIdx);
      rowIdx := rowIdx + 1;
    }
    var colIdx := 0;
    while colIdx < Cols
      invariant 0 <= colIdx <= Cols
      invariant forall r, c :: 0 <= r < Rows && 0 <= c < Cols ==>
        removed[r, c] == (if HCovered(g, r, c, Cols - 2) || (c < colIdx && VCovered(g, r, c, Rows - 2))
                          then Some(g[r][c]) else None)
    {
      MarkColumn(g, removed, colIdx);
      colIdx := colIdx + 1;
    }
  }

  /** The horizontal pass over one row: marks every cell a run of three in that row covers. */
  method MarkRow(g: Grid, removed: array2<Option<StoneType>>, rowIdx: int)
    requires WellFormed(g) && Shaped(removed) && 0 <= rowIdx < Rows
    modifies removed
    ensures forall r, c :: 0 <= r < Rows && 0 <= c < Cols ==>
      removed[r, c] == (if r == rowIdx && HCovered(g, r, c, Cols - 2) then Some(g[r][c]) else old(removed[r, c]))
  {
    var colIdx := 0;
    while colIdx < Cols - 2
      invariant 0 <= colIdx <= Cols - 2
      invariant forall r, c :: 0 <= r < Rows && 0 <= c < Cols ==>
        removed[r, c] == (if r == rowIdx && HCovered(g, r, c, colIdx) then Some(g[r][c]) else old(removed[r, c]))
    {
      var stone1, stone2, stone3 := g[rowIdx][colIdx], g[rowIdx][colIdx + 1], g[rowIdx][colIdx + 2];
      if stone1 == stone2 && stone2 == stone3 {
        removed[rowIdx, colIdx] := Some(stone1);
        removed[rowIdx, colIdx + 1] := Some(stone1);
        removed[rowIdx, colIdx + 2] := Some(stone1);
      }
      colIdx := colIdx + 1;
    }
  }

  /** The vertical pass over one column: marks every cell a run of three in that column covers. */
  method MarkColumn(g: Grid, removed: array2<Option<StoneType>>, colIdx: int)
    requires WellFormed(g) && Shaped(removed) && 0 <= colIdx < Cols
    modifies removed
    ensures forall r, c :: 0 <= r < Rows && 0 <= c < Cols ==>
      removed[r, c] == (if c == colIdx && VCovered(g, r, c, Rows - 2) then Some(g[r][c]) else old(removed[r, c]))
  {
    var rowIdx := 0;
    while rowIdx < Rows - 2
      invariant 0 <= rowIdx <= Rows - 2
      invariant forall r, c :: 0 <= r < Rows && 0 <= c < Cols ==>
        removed[r, c] == (if c == colIdx && VCovered(g, r, c, rowIdx) then Some(g[r][c]) else old(removed[r, c]))
    {
      var stone1, stone2, stone3 := g[rowIdx][colIdx], g[rowIdx + 1][colIdx], g[rowIdx + 2][colIdx];
      if stone1 == stone2 && stone2 == stone3 {
        removed[rowIdx, colIdx] := Some(stone1);
        removed[rowIdx + 1, colIdx] := Some(stone1);
        removed[rowIdx + 2, colIdx] := Some(stone1);
      }
      rowIdx := rowIdx + 1;
    }
  }

  /** Termination measure of the fill's queue: cells already filled weigh more than fresh ones. */
  ghost function QueueWeight(q: seq<Pos>, fill: set<Pos>): nat
  {
    if q == [] then 0 else (if q[0] in fill then 5 else 1) + QueueWeight(q[1..], fill)
  }

  lemma {:induction false} QueueWeightConcat(a: seq<Pos>, b: seq<Pos>, fill: set<Pos>)
    requires forall i :: 0 <= i < |b| ==> b[i] !in fill
    ensures QueueWeight(a + b, fill) == QueueWeight(a, fill) + |b|
  {
    if a == [] {
      assert a + b == b;
      QueueWeightFresh(b, fill);
    } else {
      assert (a + b)[1..] == a[1..] + b;
      QueueWeightConcat(a[1..], b, fill);
    }
  }

  lemma {:induction false} QueueWeightFresh(b: seq<Pos>, fill: set<Pos>)
    requires forall i :: 0 <= i < |b| ==> b[i] !in fill
    ensures QueueWeight(b, fill) == |b|
  {
    if b != [] {
      QueueWeightFresh(b[1..], fill);
    }
  }

  /** `removed` after the fills over the cells in `cleared`: those are emptied, the rest as marked. */
  ghost predicate ClearedState(removed: array2<Option<StoneType>>, g: Grid, cleared: set<Pos>)
    requires WellFormed(g) && Shaped(removed)
    reads removed
  {
    forall r, c :: 0 <= r < Rows && 0 <= c < Cols ==>
      removed[r, c] == (if Pos(r, c) in cleared then None else MarkOf(g, Pos(r, c)))
  }

  /**
   * One visit of the fill at cell p: enqueues, below, right, above and left
   * in that order, each neighbour on the board whose entry is still `t`.
   * The source tests only the one bound each direction can cross; with p on
   * the board that is the same as testing the neighbour is on the board.
   */
  method Visit(removed: array2<Option<StoneType>>, p: Pos, t: StoneType, q: seq<Pos>) returns (q': seq<Pos>)
    requires Shaped(removed) && InBounds(p)
    ensures |q| <= |q'| <= |q| + 4 && q'[..|q|] == q
    ensures forall i :: |q| <= i < |q'| ==>
      InBounds(q'[i]) && Adjacent(p, q'[i]) && removed[q'[i].r, q'[i].c] == Some(t)
    ensures forall v :: InBounds(v) && Adjacent(p, v) && removed[v.r, v.c] == Some(t) ==> v in q'
  {
    q' := q;
    assert q'[..|q|] == q;
    q' := Offer(removed, p, t, q, 0, q');
    q' := Offer(removed, p, t, q, 1, q');
    q' := Offer(removed, p, t, q, 2, q');
    q' := Offer(removed, p, t, q, 3, q');
    forall v | InBounds(v) && Adjacent(p, v) && removed[v.r, v.c] == Some(t) ensures v in q' {
      var j :| 0 <= j < 4 && Neighbours(p)[j] == v;
    }
  }

  /** The four cells that share a side with p, in the order Visit offers them: below, right, above, left. */
  function Neighbours(p: Pos): (ns: seq<Pos>)
    ensures |ns| == 4
    ensures forall v :: Adjacent(p, v) <==> v in ns
  {
    [Pos(p.r + 1, p.c), Pos(p.r, p.c + 1), Pos(p.r - 1, p.c), Pos(p.r, p.c - 1)]
  }

  /**
   * The queue after Visit has offered the first k neighbours of p: q plus
   * at most k cells, each adjacent with entry `t`, and among them every one
   * of those k neighbours that is on the board with entry `t`.
   */
  predicate Grown(removed: array2<Option<StoneType>>, p: Pos, t: StoneType, q: seq<Pos>, k: nat, q': seq<Pos>)
    requires Shaped(removed) && k <= 4
    reads removed
  {
    && |q| <= |q'| <= |q| + k && q'[..|q|] == q
    && (forall i :: |q| <= i < |q'| ==>
      InBounds(q'[i]) && Adjacent(p, q'[i]) && removed[q'[i].r, q'[i].c] == Some(t))
    && forall j :: 0 <= j < k && InBounds(Neighbours(p)[j]) ==>
      (removed[Neighbours(p)[j].r, Neighbours(p)[j].c] == Some(t) ==> Neighbours(p)[j] in q')
  }

  /** One neighbour check of Visit: the k-th neighbour, if on the board with entry `t`, is enqueued. */
  method Offer(removed: array2<Option<StoneType>>, p: Pos, t: StoneType, ghost q: seq<Pos>, k: nat, q0: seq<Pos>)
    returns (q': seq<Pos>)
    requires Shaped(removed) && InBounds(p) && k < 4
    requires Grown(removed, p, t, q, k, q0)
    ensures Grown(removed, p, t, q, k + 1, q')
  {
    q' := q0;
    var v := Neighbours(p)[k];
    if InBounds(v) && removed[v.r, v.c] == Some(t) {
      q' := q0 + [v];
      assert q'[..|q|] == q0[..|q|];
    }
  }

  /** Every queued cell is on the board and in `comp`. */
  ghost predicate QueuedIn(q: seq<Pos>, comp: set<Pos>)
  {
    forall i :: 0 <= i < |q| ==> InBounds(q[i]) && q[i] in comp
  }

  /** Every Link out of a filled cell leads to a filled or a queued cell. */
  ghost predicate ClosedOver(g: Grid, fill: set<Pos>, q: seq<Pos>)
    requires WellFormed(g)
  {
    forall u, v :: u in fill && Link(g, u, v) ==> v in fill || v in q
  }

  /**
   * The breadth-first fill evaluate runs from a marked cell: it empties
   * exactly the combo of `start`, and leaves every other entry as it was.
   */
  method FloodFill(removed: array2<Option<StoneType>>, start: Pos, ghost g: Grid, ghost cleared: set<Pos>)
    requires WellFormed(g) && Shaped(removed) && InBounds(start)
    requires ClearedState(removed, g, cleared)
    requires start !in cleared && Marked(g, start)
    requires forall u, v :: u in cleared && Link(g, u, v) ==> v in cleared
    modifies removed
    ensures cleared !! Component(g, start)
    ensures ClearedState(removed, g, cleared + Component(g, start))
  {
    ghost var comp := Component(g, start);
    ClearedAvoidsComponent(g, start, cleared);
    var t := removed[start.r, start.c].value;
    var q: seq<Pos> := [start];
    ghost var fill: set<Pos> := {};
    while q != []
      invariant t == At(g, start)
      invariant QueuedIn(q, comp) && fill <= comp
      invariant ClearedState(removed, g, cleared + fill)
      invariant ClosedOver(g, fill, q)
      invariant start in fill || start in q
      decreases |AllCells() - fill|, QueueWeight(q, fill)
    {
      q, fill := FillVisit(removed, t, q, g, start, cleared, fill);
    }
    forall y | y in comp ensures y in fill {
      ClosedHoldsComponent(g, fill, start, y);
    }
  }

  /**
   * One round of the fill's loop: pop the first queued cell, empty its entry
   * and enqueue its neighbours whose entry is still `t`.
   */
  method FillVisit(removed: array2<Option<StoneType>>, t: StoneType, q0: seq<Pos>,
                   ghost g: Grid, ghost start: Pos, ghost cleared: set<Pos>, ghost fill0: set<Pos>)
    returns (q: seq<Pos>, ghost fill: set<Pos>)
    requires WellFormed(g) && Shaped(removed) && q0 != [] && InBounds(start)
    requires cleared !! Component(g, start)
    requires t == At(g, start)
    requires QueuedIn(q0, Component(g, start)) && fill0 <= Component(g, start)
    requires ClearedState(removed, g, cleared + fill0)
    requires ClosedOver(g, fill0, q0)
    requires start in fill0 || start in q0
    modifies removed
    ensures QueuedIn(q, Component(g, start)) && fill <= Component(g, start)
    ensures ClearedState(removed, g, cleared + fill)
    ensures ClosedOver(g, fill, q)
    ensures start in fill || start in q
    ensures |AllCells() - fill| < |AllCells() - fill0|
         || (fill == fill0 && QueueWeight(q, fill) < QueueWeight(q0, fill0))
  {
    InBoundsQueued(q0, Component(g, start));
    var p := q0[0];
    q := q0[1..];
    ClearCell(removed, p, g, cleared + fill0);
    fill := fill0 + {p};
    assert cleared + fill == cleared + fill0 + {p};
    ghost var q1 := q;
    q := Visit(removed, p, t, q);
    VisitLinks(removed, g, start, cleared, fill, p, q1, q);
    FillStep(g, start, fill0, q0, q);
  }

  /** Empties one entry of `removed`, the first thing the fill does with a cell it pops. */
  method ClearCell(removed: array2<Option<StoneType>>, p: Pos, ghost g: Grid, ghost done: set<Pos>)
    requires WellFormed(g) && Shaped(removed) && InBounds(p)
    requires ClearedState(removed, g, done)
    modifies removed
    ensures ClearedState(removed, g, done + {p})
  {
    removed[p.r, p.c] := None;
  }

  /** A cleared set closed under Link that misses `start` misses its whole combo. */
  lemma ClearedAvoidsComponent(g: Grid, start: Pos, cleared: set<Pos>)
    requires WellFormed(g) && InBounds(start) && Marked(g, start) && start !in cleared
    requires forall u, v :: u in cleared && Link(g, u, v) ==> v in cleared
    ensures cleared !! Component(g, start)
    ensures start in Component(g, start)
  {
    ConnectedRefl(g, start);
    AllCellsInBounds(start);
    forall z | z in cleared && z in Component(g, start) ensures false {
      ConnectedSym(g, start, z);
      ClosedHoldsComponent(g, cleared, z, start);
    }
  }

  /** What one visit's enqueue tests mean: the cells enqueued are exactly the unfilled Links of p. */
  lemma VisitLinks(removed: array2<Option<StoneType>>, g: Grid, start: Pos, cleared: set<Pos>, fill: set<Pos>,
                   p: Pos, q1: seq<Pos>, q: seq<Pos>)
    requires WellFormed(g) && Shaped(removed) && InBounds(p)
    requires p in fill && p in Component(g, start)
    requires cleared !! Component(g, start)
    requires ClearedState(removed, g, cleared + fill)
    requires |q1| <= |q| && q[..|q1|] == q1
    requires forall i :: |q1| <= i < |q| ==>
      InBounds(q[i]) && Adjacent(p, q[i]) && removed[q[i].r, q[i].c] == Some(At(g, start))
    requires forall v :: InBounds(v) && Adjacent(p, v) && removed[v.r, v.c] == Some(At(g, start)) ==> v in q
    ensures forall i :: |q1| <= i < |q| ==> Link(g, p, q[i]) && q[i] !in fill
    ensures forall v :: Link(g, p, v) && v !in fill ==> v in q
  {
    ConnectedSameType(g, start, p);
    forall i | |q1| <= i < |q| ensures Link(g, p, q[i]) && q[i] !in fill {
    }
    forall v | Link(g, p, v) && v !in fill ensures v in q {
      ConnectedExtend(g, start, p, v);
      AllCellsInBounds(v);
    }
  }

  /** One pop-and-visit step of the fill keeps its invariant and decreases its measure. */
  lemma FillStep(g: Grid, start: Pos, fill0: set<Pos>, q0: seq<Pos>, q: seq<Pos>)
    requires WellFormed(g) && q0 != []
    requires QueuedIn(q0, Component(g, start)) && fill0 <= Component(g, start)
    requires ClosedOver(g, fill0, q0)
    requires start in fill0 || start in q0
    requires |q0| - 1 <= |q| <= |q0| + 3 && q[..|q0| - 1] == q0[1..]
    requires forall i :: |q0| - 1 <= i < |q| ==> Link(g, q0[0], q[i]) && q[i] !in fill0 + {q0[0]}
    requires forall v :: Link(g, q0[0], v) && v !in fill0 + {q0[0]} ==> v in q
    ensures QueuedIn(q, Component(g, start)) && fill0 + {q0[0]} <= Component(g, start)
    ensures ClosedOver(g, fill0 + {q0[0]}, q)
    ensures start in fill0 + {q0[0]} || start in q
    ensures |AllCells() - (fill0 + {q0[0]})| < |AllCells() - fill0|
         || (fill0 + {q0[0]} == fill0 && QueueWeight(q, fill0) < QueueWeight(q0, fill0))
  {
    QueueShifted(q0, q);
    FillQueued(g, start, q0, q);
    FillClosed(g, fill0, q0, q);
    StillQueued(q0, q, start, fill0 + {q0[0]});
    InBoundsQueued(q0, Component(g, start));
    FillMeasure(g, fill0, q0, q);
  }

  /** After popping the head, the rest of the queue sits one place earlier. */
  lemma QueueShifted(q0: seq<Pos>, q: seq<Pos>)
    requires q0 != [] && |q0| - 1 <= |q| && q[..|q0| - 1] == q0[1..]
    ensures forall i :: 0 <= i < |q0| - 1 ==> q[i] == q0[i + 1]
  {
    forall i | 0 <= i < |q0| - 1 ensures q[i] == q0[i + 1] {
      assert q[..|q0| - 1][i] == q0[1..][i];
    }
  }

  /** A queued cell other than the popped head is still queued. */
  lemma StillQueued(q0: seq<Pos>, q: seq<Pos>, x: Pos, fill: set<Pos>)
    requires q0 != [] && q0[0] in fill && |q0| - 1 <= |q|
    requires forall i :: 0 <= i < |q0| - 1 ==> q[i] == q0[i + 1]
    requires x in fill || x in q0
    ensures x in fill || x in q
  {
    if x !in fill {
      var k :| 0 <= k < |q0| && q0[k] == x;
      assert q[k - 1] == x;
    }
  }

  lemma InBoundsQueued(q: seq<Pos>, comp: set<Pos>)
    requires QueuedIn(q, comp) && q != []
    ensures InBounds(q[0]) && q[0] in comp
  {
  }

  /** The cells left in the queue, and those the visit enqueued, are in the combo of `start`. */
  lemma FillQueued(g: Grid, start: Pos, q0: seq<Pos>, q: seq<Pos>)
    requires WellFormed(g) && q0 != []
    requires QueuedIn(q0, Component(g, start))
    requires |q0| - 1 <= |q|
    requires forall i :: 0 <= i < |q0| - 1 ==> q[i] == q0[i + 1]
    requires forall i :: |q0| - 1 <= i < |q| ==> Link(g, q0[0], q[i])
    ensures QueuedIn(q, Component(g, start))
  {
    forall i | 0 <= i < |q| ensures InBounds(q[i]) && q[i] in Component(g, start) {
      if i >= |q0| - 1 {
        ConnectedExtend(g, start, q0[0], q[i]);
        AllCellsInBounds(q[i]);
      } else {
        assert q0[i + 1] in Component(g, start);
      }
    }
  }

  /** After the visit, every Link out of the filled cells, the popped one included, is filled or queued. */
  lemma FillClosed(g: Grid, fill0: set<Pos>, q0: seq<Pos>, q: seq<Pos>)
    requires WellFormed(g) && q0 != []
    requires ClosedOver(g, fill0, q0)
    requires |q0| - 1 <= |q|
    requires forall i :: 0 <= i < |q0| - 1 ==> q[i] == q0[i + 1]
    requires forall v :: Link(g, q0[0], v) && v !in fill0 + {q0[0]} ==> v in q
    ensures ClosedOver(g, fill0 + {q0[0]}, q)
  {
    var p := q0[0];
    var fill := fill0 + {p};
    forall u, v | u in fill && Link(g, u, v) ensures v in fill || v in q {
      if u != p && v !in fill {
        ClosedOverUse(g, fill0, q0, u, v);
        var k :| 0 <= k < |q0| && q0[k] == v;
        assert q[k - 1] == v;
      }
    }
  }

  lemma ClosedOverUse(g: Grid, fill: set<Pos>, q: seq<Pos>, u: Pos, v: Pos)
    requires WellFormed(g) && ClosedOver(g, fill, q) && u in fill && Link(g, u, v)
    ensures v in fill || v in q
  {
  }

  /** Popping a cell and enqueuing only unfilled cells decreases the fill's measure. */
  lemma FillMeasure(g: Grid, fill0: set<Pos>, q0: seq<Pos>, q: seq<Pos>)
    requires q0 != [] && InBounds(q0[0])
    requires |q0| - 1 <= |q| <= |q0| + 3 && q[..|q0| - 1] == q0[1..]
    requires forall i :: |q0| - 1 <= i < |q| ==> q[i] !in fill0 + {q0[0]}
    ensures |AllCells() - (fill0 + {q0[0]})| < |AllCells() - fill0|
         || (fill0 + {q0[0]} == fill0 && QueueWeight(q, fill0) < QueueWeight(q0, fill0))
  {
    var p := q0[0];
    if p !in fill0 {
      AllCellsInBounds(p);
      var rest := AllCells() - (fill0 + {p});
      assert p !in rest;
      assert AllCells() - fill0 == rest + {p};
      assert |rest + {p}| == |rest| + 1;
    } else {
      assert fill0 + {p} == fill0;
      assert QueueWeight(q0, fill0) == 5 + QueueWeight(q0[1..], fill0);
      var q1 := q0[1..];
      var tail := q[|q1|..];
      assert q == q1 + tail;
      forall i | 0 <= i < |tail| ensures tail[i] !in fill0 {
        assert tail[i] == q[|q1| + i];
      }
      QueueWeightConcat(q1, tail, fill0);
    }
  }

  /** The stone count of evaluate: the marked entries, counted in a row-major scan. */
  method CountMarked(removed: array2<Option<StoneType>>, ghost g: Grid) returns (stones: nat)
    requires WellFormed(g) && Shaped(removed) && ClearedState(removed, g, {})
    ensures stones == Stones(g)
  {
    stones := 0;
    ScanStart(g);
    var rowIdx := 0;
    while rowIdx < Rows
      invariant 0 <= rowIdx <= Rows
      invariant stones == |MarkedBefore(g, Pos(rowIdx, 0))|
    {
      var colIdx := 0;
      while colIdx < Cols
        invariant 0 <= colIdx <= Cols
        invariant stones == |MarkedBefore(g, Pos(rowIdx, colIdx))|
      {
        CountStep(removed, g, Pos(rowIdx, colIdx));
        if removed[rowIdx, colIdx] != None {
          stones := stones + 1;
        }
        colIdx := colIdx + 1;
      }
      ScanWrap(g, rowIdx);
      rowIdx := rowIdx + 1;
    }
    ScanComplete(g);
  }

  /** Passing cell k adds one to the marked cells passed exactly when k's entry is set. */
  lemma CountStep(removed: array2<Option<StoneType>>, g: Grid, k: Pos)
    requires WellFormed(g) && Shaped(removed) && ClearedState(removed, g, {}) && InBounds(k)
    ensures |MarkedBefore(g, Pos(k.r, k.c + 1))| ==
      |MarkedBefore(g, k)| + (if removed[k.r, k.c] != None then 1 else 0)
  {
    ScanStepMarked(g, k);
    assert removed[k.r, k.c] == MarkOf(g, Pos(k.r, k.c));
    if Marked(g, k) {
      assert k !in MarkedBefore(g, k);
    }
  }

  /** The boundary count of evaluate: how many of the four corner entries are marked. */
  method CountCorners(removed: array2<Option<StoneType>>, ghost g: Grid) returns (boundary: nat)
    requires WellFormed(g) && Shaped(removed) && ClearedState(removed, g, {})
    ensures boundary == Boundary(g)
  {
    BoundaryCorners(g);
    boundary := 0;
    if removed[0, 0] != None {
      boundary := boundary + 1;
    }
    if removed[0, Cols - 1] != None {
      boundary := boundary + 1;
    }
    if removed[Rows - 1, 0] != None {
      boundary := boundary + 1;
    }
    if removed[Rows - 1, Cols - 1] != None {
      boundary := boundary + 1;
    }
  }

  /** The scan's state on reaching cell k: the combos counted and the cells cleared before k. */
  ghost predicate ScanState(removed: array2<Option<StoneType>>, g: Grid, k: Pos, combo: nat, cleared: set<Pos>)
    requires WellFormed(g) && Shaped(removed)
    reads removed
  {
    && cleared == ClearedBefore(g, k)
    && combo == |RepsBefore(g, k)|
    && 3 * combo <= |cleared|
    && ClearedState(removed, g, cleared)
  }

  /**
   * The combo pass of evaluate: a row-major scan that counts one combo for
   * every entry still marked and flood-fills that combo away.
   */
  method CountCombos(removed: array2<Option<StoneType>>, ghost g: Grid) returns (combo: nat)
    requires WellFormed(g) && Shaped(removed) && ClearedState(removed, g, {})
    modifies removed
    ensures combo == Combo(g) && 3 * combo <= Stones(g)
  {
    combo := 0;
    ghost var cleared: set<Pos> := {};
    ScanStart(g);
    var rowIdx := 0;
    while rowIdx < Rows
      invariant 0 <= rowIdx <= Rows
      invariant ScanState(removed, g, Pos(rowIdx, 0), combo, cleared)
    {
      combo, cleared := ScanRow(removed, rowIdx, combo, g, cleared);
      rowIdx := rowIdx + 1;
    }
    ScanStateEnd(removed, g, combo, cleared);
  }

  /** The scan of one row, left to right. */
  method ScanRow(removed: array2<Option<StoneType>>, rowIdx: int, combo0: nat, ghost g: Grid, ghost cleared0: set<Pos>)
    returns (combo: nat, ghost cleared: set<Pos>)
    requires WellFormed(g) && Shaped(removed) && 0 <= rowIdx < Rows
    requires ScanState(removed, g, Pos(rowIdx, 0), combo0, cleared0)
    modifies removed
    ensures ScanState(removed, g, Pos(rowIdx + 1, 0), combo, cleared)
  {
    combo, cleared := combo0, cleared0;
    var colIdx := 0;
    while colIdx < Cols
      invariant 0 <= colIdx <= Cols
      invariant ScanState(removed, g, Pos(rowIdx, colIdx), combo, cleared)
    {
      combo, cleared := ScanCell(removed, Pos(rowIdx, colIdx), combo, g, cleared);
      colIdx := colIdx + 1;
    }
    ScanStateWrap(removed, g, rowIdx, combo, cleared);
  }

  /** The scan's visit of one cell: a still-marked entry is a new combo, filled away at once. */
  method ScanCell(removed: array2<Option<StoneType>>, k: Pos, combo0: nat, ghost g: Grid, ghost cleared0: set<Pos>)
    returns (combo: nat, ghost cleared: set<Pos>)
    requires WellFormed(g) && Shaped(removed) && InBounds(k)
    requires ScanState(removed, g, k, combo0, cleared0)
    modifies removed
    ensures ScanState(removed, g, Pos(k.r, k.c + 1), combo, cleared)
  {
    combo, cleared := combo0, cleared0;
    if removed[k.r, k.c] != None {
      ScanStepCombo(g, k);
      forall u, v | u in cleared && Link(g, u, v) ensures v in cleared {
        ClearedClosed(g, k, u, v);
      }
      combo := combo + 1;
      FloodFill(removed, k, g, cleared);
      ComponentHasThree(g, k);
      DisjointCard(cleared, Component(g, k));
      DisjointCard(RepsBefore(g, k), {k});
      cleared := cleared + Component(g, k);
    } else {
      ScanStepSkip(g, k);
    }
  }

  lemma ScanStateWrap(removed: array2<Option<StoneType>>, g: Grid, r: int, combo: nat, cleared: set<Pos>)
    requires WellFormed(g) && Shaped(removed)
    requires ScanState(removed, g, Pos(r, Cols), combo, cleared)
    ensures ScanState(removed, g, Pos(r + 1, 0), combo, cleared)
  {
    ScanWrap(g, r);
  }

  lemma ScanStateEnd(removed: array2<Option<StoneType>>, g: Grid, combo: nat, cleared: set<Pos>)
    requires WellFormed(g) && Shaped(removed)
    requires ScanState(removed, g, Pos(Rows, 0), combo, cleared)
    ensures combo == Combo(g) && 3 * combo <= Stones(g)
  {
    ScanComplete(g);
    SubsetCard(cleared, MarkedCells(g));
  }

  lemma DisjointCard(a: set<Pos>, b: set<Pos>)
    requires a !! b
    ensures |a + b| == |a| + |b|
  {
    assert a * b == {};
  }
}
