/**
 * What TosBoard.evaluate (scripts/tos.py) computes, stated on grid values:
 * which cells a run of three marks, how many are marked, which corners are
 * marked, and how many same-type 4-connected groups ("combos") they form.
 */
module Matching {
  import opened Wrappers
  import opened Runestones
  import opened Slides

  /** The result tuple of evaluate: (stones, boundary, combo, end). */
  datatype Evaluation = Evaluation(stones: nat, boundary: nat, combo: nat, end: bool)

  /** Row r holds three equal stones at columns w, w+1, w+2. */
  predicate HWindow(g: Grid, r: int, w: int)
    requires WellFormed(g) && 0 <= r < Rows
  {
    0 <= w <= Cols - 3 && g[r][w] == g[r][w + 1] && g[r][w + 1] == g[r][w + 2]
  }

  /** Column c holds three equal stones at rows w, w+1, w+2. */
  predicate VWindow(g: Grid, w: int, c: int)
    requires WellFormed(g) && 0 <= c < Cols
  {
    0 <= w <= Rows - 3 && g[w][c] == g[w + 1][c] && g[w + 1][c] == g[w + 2][c]
  }

  /** Cell (r, c) lies in a horizontal window that starts before column `lim`. */
  predicate HCovered(g: Grid, r: int, c: int, lim: int)
    requires WellFormed(g) && 0 <= r < Rows
  {
    (c - 2 < lim && HWindow(g, r, c - 2)) ||
    (c - 1 < lim && HWindow(g, r, c - 1)) ||
    (c < lim && HWindow(g, r, c))
  }

  /** Cell (r, c) lies in a vertical window that starts before row `lim`. */
  predicate VCovered(g: Grid, r: int, c: int, lim: int)
    requires WellFormed(g) && 0 <= c < Cols
  {
    (r - 2 < lim && VWindow(g, r - 2, c)) ||
    (r - 1 < lim && VWindow(g, r - 1, c)) ||
    (r < lim && VWindow(g, r, c))
  }

  /** A cell is marked removed iff some row or column window of three equal stones covers it. */
  predicate Marked(g: Grid, p: Pos)
    requires WellFormed(g) && InBounds(p)
  {
    HCovered(g, p.r, p.c, Cols - 2) || VCovered(g, p.r, p.c, Rows - 2)
  }

  /** The entry evaluate leaves in its `removed` grid for a cell: the cell's own type when marked. */
  function MarkOf(g: Grid, p: Pos): Option<StoneType>
    requires WellFormed(g) && InBounds(p)
  {
    if Marked(g, p) then Some(At(g, p)) else None
  }

  /** The 30 cells of the board. */
  function AllCells(): set<Pos> {
    set r, c | 0 <= r < Rows && 0 <= c < Cols :: Pos(r, c)
  }

  function MarkedCells(g: Grid): set<Pos>
    requires WellFormed(g)
  {
    set p | p in AllCells() && Marked(g, p)
  }

  function Stones(g: Grid): nat
    requires WellFormed(g)
  {
    |MarkedCells(g)|
  }

  /** The four corner cells. */
  function Corners(): set<Pos> {
    {Pos(0, 0), Pos(0, Cols - 1), Pos(Rows - 1, 0), Pos(Rows - 1, Cols - 1)}
  }

  /** How many of the four corners are marked. */
  function Boundary(g: Grid): nat
    requires WellFormed(g)
  {
    |MarkedCells(g) * Corners()|
  }

  /** The boundary count written out corner by corner, as evaluate counts it. */
  lemma BoundaryCorners(g: Grid)
    requires WellFormed(g)
    ensures Boundary(g) ==
      (if Marked(g, Pos(0, 0)) then 1 else 0) +
      (if Marked(g, Pos(0, Cols - 1)) then 1 else 0) +
      (if Marked(g, Pos(Rows - 1, 0)) then 1 else 0) +
      (if Marked(g, Pos(Rows - 1, Cols - 1)) then 1 else 0)
  {
    var m := MarkedCells(g);
    forall x | x in Corners() ensures x in m <==> Marked(g, x) {
      AllCellsInBounds(x);
    }
    CornersMet(m);
  }

  /** The corners in a set of cells, counted one by one. */
  lemma CornersMet(m: set<Pos>)
    ensures |m * Corners()| ==
      (if Pos(0, 0) in m then 1 else 0) +
      (if Pos(0, Cols - 1) in m then 1 else 0) +
      (if Pos(Rows - 1, 0) in m then 1 else 0) +
      (if Pos(Rows - 1, Cols - 1) in m then 1 else 0)
  {
    CornersOneByOne();
    MeetFour(m, Pos(0, 0), Pos(0, Cols - 1), Pos(Rows - 1, 0), Pos(Rows - 1, Cols - 1));
  }

  /** Four distinct cells met by `m`, counted one by one. */
  lemma MeetFour(m: set<Pos>, a: Pos, b: Pos, c: Pos, d: Pos)
    requires a != b && a != c && a != d && b != c && b != d && c != d
    ensures |m * ({a} + ({b} + ({c} + {d})))| ==
      (if a in m then 1 else 0) + (if b in m then 1 else 0) + (if c in m then 1 else 0) + (if d in m then 1 else 0)
  {
    var s3 := {d};
    var s2 := {c} + s3;
    var s1 := {b} + s2;
    MeetOne(m, d);
    MeetCount(m, c, s3);
    MeetCount(m, b, s2);
    MeetCount(m, a, s1);
  }

  lemma MeetOne(m: set<Pos>, d: Pos)
    ensures |m * {d}| == if d in m then 1 else 0
  {
    if d in m {
      assert m * {d} == {d};
    } else {
      assert m * {d} == {};
    }
  }

  lemma CornersOneByOne()
    ensures Corners() == {Pos(0, 0)} + ({Pos(0, Cols - 1)} + ({Pos(Rows - 1, 0)} + {Pos(Rows - 1, Cols - 1)}))
  {
  }

  /** Intersecting with one more cell adds one exactly when the cell is in `m`. */
  lemma MeetCount(m: set<Pos>, p: Pos, rest: set<Pos>)
    requires p !in rest
    ensures |m * ({p} + rest)| == (if p in m then 1 else 0) + |m * rest|
  {
    if p in m {
      assert m * ({p} + rest) == {p} + m * rest;
    } else {
      assert m * ({p} + rest) == m * rest;
    }
  }

  // ---------------------------------------------------------------------
  // Same-type connectivity of marked cells

  /** Two marked neighbours of the same type: the flood fill steps from one to the other. */
  predicate Link(g: Grid, x: Pos, y: Pos)
    requires WellFormed(g)
  {
    InBounds(x) && InBounds(y) && Adjacent(x, y) &&
    Marked(g, x) && Marked(g, y) && At(g, x) == At(g, y)
  }

  /** A walk through marked cells, each step a Link. */
  predicate IsChain(g: Grid, path: seq<Pos>)
    requires WellFormed(g)
  {
    && |path| >= 1
    && InBounds(path[0]) && Marked(g, path[0])
    && forall i :: 0 <= i < |path| - 1 ==> Link(g, path[i], path[i + 1])
  }

  ghost predicate Connected(g: Grid, x: Pos, y: Pos)
    requires WellFormed(g)
  {
    exists path :: IsChain(g, path) && path[0] == x && path[|path| - 1] == y
  }

  /** The cells of x's combo. */
  ghost function Component(g: Grid, x: Pos): set<Pos>
    requires WellFormed(g)
  {
    set y | y in AllCells() && Connected(g, x, y)
  }

  /** x is the first cell, in row-major order, of its combo. */
  ghost predicate IsRep(g: Grid, x: Pos)
    requires WellFormed(g)
  {
    x in AllCells() && Marked(g, x) && forall y :: Connected(g, y, x) ==> !Before(y, x)
  }

  /** One representative per combo. */
  ghost function Reps(g: Grid): set<Pos>
    requires WellFormed(g)
  {
    set x | x in AllCells() && IsRep(g, x)
  }

  /** The number of same-type 4-connected groups of marked cells. */
  ghost function Combo(g: Grid): nat
    requires WellFormed(g)
  {
    |Reps(g)|
  }

  /** What evaluate returns for a board. */
  ghost function EvalSpec(b: Board): Evaluation
    requires ValidBoard(b)
  {
    Evaluation(Stones(b.grid), Boundary(b.grid), Combo(b.grid), Marked(b.grid, b.current))
  }

  // ---------------------------------------------------------------------
  // Facts about connectivity

  lemma ConnectedRefl(g: Grid, x: Pos)
    requires WellFormed(g) && InBounds(x) && Marked(g, x)
    ensures Connected(g, x, x)
  {
    assert IsChain(g, [x]);
  }

  lemma ConnectedExtend(g: Grid, x: Pos, y: Pos, z: Pos)
    requires WellFormed(g) && Connected(g, x, y) && Link(g, y, z)
    ensures Connected(g, x, z)
  {
    var path :| IsChain(g, path) && path[0] == x && path[|path| - 1] == y;
    var path' := path + [z];
    forall i | 0 <= i < |path'| - 1 ensures Link(g, path'[i], path'[i + 1]) {
      if i < |path| - 1 {
        assert path'[i] == path[i] && path'[i + 1] == path[i + 1];
      }
    }
    assert IsChain(g, path');
  }

  /** Every cell of a chain is marked, in the grid, and of the first cell's type. */
  lemma {:induction false} ChainCells(g: Grid, path: seq<Pos>, i: int)
    requires WellFormed(g) && IsChain(g, path) && 0 <= i < |path|
    ensures InBounds(path[i]) && Marked(g, path[i]) && At(g, path[i]) == At(g, path[0])
  {
    if i > 0 {
      ChainCells(g, path, i - 1);
      assert Link(g, path[i - 1], path[i]);
    }
  }

  lemma ConnectedSameType(g: Grid, x: Pos, y: Pos)
    requires WellFormed(g) && Connected(g, x, y)
    ensures InBounds(x) && InBounds(y) && Marked(g, x) && Marked(g, y) && At(g, x) == At(g, y)
  {
    var path :| IsChain(g, path) && path[0] == x && path[|path| - 1] == y;
    ChainCells(g, path, |path| - 1);
  }

  lemma ConnectedSym(g: Grid, x: Pos, y: Pos)
    requires WellFormed(g) && Connected(g, x, y)
    ensures Connected(g, y, x)
  {
    var path :| IsChain(g, path) && path[0] == x && path[|path| - 1] == y;
    var n := |path|;
    var rev := seq(n, i requires 0 <= i < n => path[n - 1 - i]);
    ChainCells(g, path, n - 1);
    forall i | 0 <= i < n - 1 ensures Link(g, rev[i], rev[i + 1]) {
      assert Link(g, path[n - 2 - i], path[n - 1 - i]);
    }
    assert IsChain(g, rev);
  }

  lemma {:induction false} ConnectedTrans(g: Grid, x: Pos, y: Pos, z: Pos)
    requires WellFormed(g) && Connected(g, x, y) && Connected(g, y, z)
    ensures Connected(g, x, z)
  {
    var path :| IsChain(g, path) && path[0] == y && path[|path| - 1] == z;
    ChainPrefixConnected(g, x, path, |path|);
  }

  lemma {:induction false} ChainPrefixConnected(g: Grid, x: Pos, path: seq<Pos>, k: int)
    requires WellFormed(g) && IsChain(g, path) && Connected(g, x, path[0]) && 1 <= k <= |path|
    ensures Connected(g, x, path[k - 1])
  {
    if k > 1 {
      ChainPrefixConnected(g, x, path, k - 1);
      ConnectedExtend(g, x, path[k - 2], path[k - 1]);
    }
  }

  /** A set closed under Link that holds x holds x's whole combo. */
  lemma ClosedHoldsComponent(g: Grid, s: set<Pos>, x: Pos, y: Pos)
    requires WellFormed(g) && x in s && Connected(g, x, y)
    requires forall u, v :: u in s && Link(g, u, v) ==> v in s
    ensures y in s
  {
    var path :| IsChain(g, path) && path[0] == x && path[|path| - 1] == y;
    ChainInClosed(g, s, path, |path| - 1);
  }

  lemma {:induction false} ChainInClosed(g: Grid, s: set<Pos>, path: seq<Pos>, i: int)
    requires WellFormed(g) && IsChain(g, path) && path[0] in s && 0 <= i < |path|
    requires forall u, v :: u in s && Link(g, u, v) ==> v in s
    ensures path[i] in s
  {
    if i > 0 {
      ChainInClosed(g, s, path, i - 1);
      assert Link(g, path[i - 1], path[i]);
    }
  }

  lemma AllCellsInBounds(p: Pos)
    ensures p in AllCells() <==> InBounds(p)
  {
    if InBounds(p) {
      assert p == Pos(p.r, p.c);
    }
  }

  /** Every marked cell belongs to a window of three, so every combo has at least 3 cells. */
  lemma ComponentHasThree(g: Grid, x: Pos)
    requires WellFormed(g) && InBounds(x) && Marked(g, x)
    ensures |Component(g, x)| >= 3
  {
    var a, b, c := WindowOf(g, x);
    var comp := Component(g, x);
    ConnectedRefl(g, a);
    assert Link(g, a, b);
    ConnectedExtend(g, a, a, b);
    assert Link(g, b, c);
    ConnectedExtend(g, a, b, c);
    // x is one of a, b, c, hence connected to a
    assert Connected(g, a, x);
    ConnectedSym(g, a, x);
    ConnectedTrans(g, x, a, b);
    ConnectedTrans(g, x, a, c);
    AllCellsInBounds(a);
    AllCellsInBounds(b);
    AllCellsInBounds(c);
    assert a in comp && b in comp && c in comp;
    ThreeCard(comp, a, b, c);
  }

  /** A set holding three distinct cells has at least three elements. */
  lemma ThreeCard(s: set<Pos>, a: Pos, b: Pos, c: Pos)
    requires a in s && b in s && c in s && a != b && b != c && a != c
    ensures |s| >= 3
  {
    assert |{a, b, c}| == 3;
    assert s == {a, b, c} + (s - {a, b, c});
  }

  /** The three cells of a window covering a marked cell x (x among them). */
  lemma WindowOf(g: Grid, x: Pos) returns (a: Pos, b: Pos, c: Pos)
    requires WellFormed(g) && InBounds(x) && Marked(g, x)
    ensures InBounds(a) && InBounds(b) && InBounds(c)
    ensures Marked(g, a) && Marked(g, b) && Marked(g, c)
    ensures Adjacent(a, b) && Adjacent(b, c) && a != c
    ensures At(g, a) == At(g, b) == At(g, c)
    ensures x == a || x == b || x == c
  {
    var w: int;
    if HCovered(g, x.r, x.c, Cols - 2) {
      w := if HWindow(g, x.r, x.c - 2) then x.c - 2 else if HWindow(g, x.r, x.c - 1) then x.c - 1 else x.c;
      a, b, c := Pos(x.r, w), Pos(x.r, w + 1), Pos(x.r, w + 2);
      assert HWindow(g, x.r, w);
      assert HCovered(g, a.r, a.c, Cols - 2) && HCovered(g, b.r, b.c, Cols - 2) && HCovered(g, c.r, c.c, Cols - 2);
    } else {
      w := if VWindow(g, x.r - 2, x.c) then x.r - 2 else if VWindow(g, x.r - 1, x.c) then x.r - 1 else x.r;
      a, b, c := Pos(w, x.c), Pos(w + 1, x.c), Pos(w + 2, x.c);
      assert VWindow(g, w, x.c);
      assert VCovered(g, a.r, a.c, Rows - 2) && VCovered(g, b.r, b.c, Rows - 2) && VCovered(g, c.r, c.c, Rows - 2);
    }
  }

  // ---------------------------------------------------------------------
  // Counting facts

  lemma SubsetCard(a: set<Pos>, b: set<Pos>)
    requires a <= b
    ensures |a| <= |b|
  {
    assert b == a + (b - a);
  }

  /** At most the four corners count, and each counted corner is a marked cell. */
  lemma BoundaryBounds(g: Grid)
    requires WellFormed(g)
    ensures Boundary(g) <= 4
    ensures Boundary(g) <= Stones(g)
  {
    BoundaryCorners(g);
    SubsetCard(MarkedCells(g) * Corners(), MarkedCells(g));
  }

  /** No marked cell means no combo, and a marked cell means at least one. */
  lemma ComboZeroIffNoStones(g: Grid)
    requires WellFormed(g)
    ensures Combo(g) == 0 <==> Stones(g) == 0
    ensures Combo(g) <= Stones(g)
  {
    assert Reps(g) <= MarkedCells(g);
    SubsetCard(Reps(g), MarkedCells(g));
    if Stones(g) != 0 {
      var x :| x in MarkedCells(g);
      var first := FirstMarked(g, x);
      assert first in Reps(g);
    }
  }

  /** Every marked cell has a representative: walking to earlier connected cells ends. */
  lemma {:induction false} FirstMarked(g: Grid, x: Pos) returns (first: Pos)
    requires WellFormed(g) && x in MarkedCells(g)
    ensures IsRep(g, first)
    decreases x.r * Cols + x.c
  {
    if y :| Connected(g, y, x) && Before(y, x) {
      ConnectedSameType(g, y, x);
      AllCellsInBounds(y);
      first := FirstMarked(g, y);
    } else {
      first := x;
    }
  }

  // ---------------------------------------------------------------------
  // The scan of evaluate, cell by cell in row-major order

  /** The marked cells the scan has passed before reaching `q`. */
  ghost function MarkedBefore(g: Grid, q: Pos): set<Pos>
    requires WellFormed(g)
  {
    set p | p in AllCells() && Before(p, q) && Marked(g, p)
  }

  /** The combo representatives the scan has passed before reaching `q`. */
  ghost function RepsBefore(g: Grid, q: Pos): set<Pos>
    requires WellFormed(g)
  {
    set p | p in AllCells() && Before(p, q) && IsRep(g, p)
  }

  /** The cells the flood fills started before `q` have cleared. */
  ghost function ClearedBefore(g: Grid, q: Pos): set<Pos>
    requires WellFormed(g)
  {
    set x | x in AllCells() && exists y :: y in AllCells() && Before(y, q) && Connected(g, y, x)
  }

  /** Moving the scan one column on adds the cell it passes. */
  lemma ScanStepMarked(g: Grid, k: Pos)
    requires WellFormed(g) && InBounds(k)
    ensures MarkedBefore(g, Pos(k.r, k.c + 1)) == MarkedBefore(g, k) + (if Marked(g, k) then {k} else {})
  {
    AllCellsInBounds(k);
  }

  /** Before the first cell the scan has passed nothing. */
  lemma ScanStart(g: Grid)
    requires WellFormed(g)
    ensures MarkedBefore(g, Pos(0, 0)) == {}
    ensures RepsBefore(g, Pos(0, 0)) == {}
    ensures ClearedBefore(g, Pos(0, 0)) == {}
  {
    forall p | p in AllCells() ensures !Before(p, Pos(0, 0)) {
      AllCellsInBounds(p);
    }
  }

  /** Finishing a row is the same as starting the next one. */
  lemma ScanWrap(g: Grid, r: int)
    requires WellFormed(g)
    ensures MarkedBefore(g, Pos(r, Cols)) == MarkedBefore(g, Pos(r + 1, 0))
    ensures RepsBefore(g, Pos(r, Cols)) == RepsBefore(g, Pos(r + 1, 0))
    ensures ClearedBefore(g, Pos(r, Cols)) == ClearedBefore(g, Pos(r + 1, 0))
  {
    forall p | p in AllCells() ensures Before(p, Pos(r, Cols)) <==> Before(p, Pos(r + 1, 0)) {
      AllCellsInBounds(p);
    }
  }

  /** The whole scan passes every cell. */
  lemma ScanComplete(g: Grid)
    requires WellFormed(g)
    ensures MarkedBefore(g, Pos(Rows, 0)) == MarkedCells(g)
    ensures RepsBefore(g, Pos(Rows, 0)) == Reps(g)
    ensures ClearedBefore(g, Pos(Rows, 0)) <= MarkedCells(g)
  {
    forall p | p in AllCells() ensures Before(p, Pos(Rows, 0)) {
      AllCellsInBounds(p);
    }
    forall x | x in ClearedBefore(g, Pos(Rows, 0)) ensures x in MarkedCells(g) {
      var y :| y in AllCells() && Before(y, Pos(Rows, 0)) && Connected(g, y, x);
      ConnectedSameType(g, y, x);
    }
  }

  /** What the fills so far have cleared is closed under Link. */
  lemma ClearedClosed(g: Grid, q: Pos, u: Pos, v: Pos)
    requires WellFormed(g) && u in ClearedBefore(g, q) && Link(g, u, v)
    ensures v in ClearedBefore(g, q)
  {
    var y :| y in AllCells() && Before(y, q) && Connected(g, y, u);
    ConnectedExtend(g, y, u, v);
    AllCellsInBounds(v);
  }

  /** A scanned cell that is unmarked or already cleared starts no combo. */
  lemma ScanStepSkip(g: Grid, k: Pos)
    requires WellFormed(g) && InBounds(k)
    requires !Marked(g, k) || k in ClearedBefore(g, k)
    ensures RepsBefore(g, Pos(k.r, k.c + 1)) == RepsBefore(g, k)
    ensures ClearedBefore(g, Pos(k.r, k.c + 1)) == ClearedBefore(g, k)
  {
    var next := Pos(k.r, k.c + 1);
    AllCellsInBounds(k);
    assert !IsRep(g, k) by {
      if Marked(g, k) {
        var y :| y in AllCells() && Before(y, k) && Connected(g, y, k);
      }
    }
    forall x | x in ClearedBefore(g, next) ensures x in ClearedBefore(g, k) {
      var y :| y in AllCells() && Before(y, next) && Connected(g, y, x);
      if y == k {
        ConnectedSameType(g, y, x);
        var z :| z in AllCells() && Before(z, k) && Connected(g, z, k);
        ConnectedTrans(g, z, k, x);
      }
    }
  }

  /** A scanned cell still marked is a new combo: its fill clears exactly its component. */
  lemma ScanStepCombo(g: Grid, k: Pos)
    requires WellFormed(g) && InBounds(k)
    requires Marked(g, k) && k !in ClearedBefore(g, k)
    ensures IsRep(g, k) && k !in RepsBefore(g, k)
    ensures RepsBefore(g, Pos(k.r, k.c + 1)) == RepsBefore(g, k) + {k}
    ensures ClearedBefore(g, Pos(k.r, k.c + 1)) == ClearedBefore(g, k) + Component(g, k)
    ensures ClearedBefore(g, k) !! Component(g, k)
    ensures Component(g, k) <= MarkedCells(g)
  {
    var next := Pos(k.r, k.c + 1);
    AllCellsInBounds(k);
    forall y | Connected(g, y, k) ensures !Before(y, k) {
      ConnectedSameType(g, y, k);
      AllCellsInBounds(y);
    }
    forall x | x in ClearedBefore(g, next) ensures x in ClearedBefore(g, k) + Component(g, k) {
      var y :| y in AllCells() && Before(y, next) && Connected(g, y, x);
    }
    forall x | x in Component(g, k) ensures x in ClearedBefore(g, next) {
    }
    forall x | x in ClearedBefore(g, k) ensures x !in Component(g, k) {
      var y :| y in AllCells() && Before(y, k) && Connected(g, y, x);
      if x in Component(g, k) {
        ConnectedSym(g, k, x);
        ConnectedTrans(g, y, x, k);
      }
    }
    forall x | x in Component(g, k) ensures x in MarkedCells(g) {
      ConnectedSameType(g, k, x);
    }
  }
}
