/**
 * The value a TosBoard holds and the single-cell slide rule of
 * TosBoard.getSuccessorList (scripts/tos.py), on values: the planner's
 * specification talks about boards through these functions.
 */
module Slides {
  import opened Wrappers
  import opened Runestones

  /** The state of a TosBoard: its stones, the dragged cell and the cell before it. */
  datatype Board = Board(grid: Grid, current: Pos, previous: Pos)

  predicate ValidBoard(b: Board) {
    WellFormed(b.grid) && InBounds(b.current) && InBounds(b.previous)
  }

  /**
   * One slide of the dragged stone: the target is refused when it is the
   * previous cell or off the grid; otherwise the two stones are exchanged,
   * the finger moves to the target and remembers where it came from.
   */
  function Slide(b: Board, m: Move): (r: Option<Board>)
    requires ValidBoard(b)
    ensures r.Some? <==> Legal(b.current, b.previous, m)
    ensures r.Some? ==> ValidBoard(r.value)
  {
    var np := Step(b.current, m);
    if np == b.previous then None
    else if InBounds(np) then Some(Board(Swapped(b.grid, np, b.current), np, b.current))
    else None
  }

  /** The test getSuccessorList applies to a move: its target is neither the previous cell nor off the grid. */
  predicate Legal(current: Pos, previous: Pos, m: Move) {
    Step(current, m) != previous && InBounds(Step(current, m))
  }

  /** The moves of `ms` that pass the test, in the order they are tried. */
  function LegalMoves(current: Pos, previous: Pos, ms: seq<Move>): (kept: seq<Move>)
    ensures |kept| <= |ms|
  {
    if ms == [] then []
    else
      var last := ms[|ms| - 1];
      LegalMoves(current, previous, ms[..|ms| - 1]) + (if Legal(current, previous, last) then [last] else [])
  }

  /** A move is kept exactly when it is tried and passes the test. */
  lemma {:induction false} LegalMovesMember(current: Pos, previous: Pos, ms: seq<Move>, m: Move)
    ensures m in LegalMoves(current, previous, ms) <==> m in ms && Legal(current, previous, m)
    decreases |ms|
  {
    if ms != [] {
      var init := ms[..|ms| - 1];
      LegalMovesMember(current, previous, init, m);
      assert ms == init + [ms[|ms| - 1]];
    }
  }

  lemma LegalMovesStep(current: Pos, previous: Pos, ms: seq<Move>, k: int)
    requires 0 <= k < |ms|
    ensures LegalMoves(current, previous, ms[..k + 1]) ==
      LegalMoves(current, previous, ms[..k]) + (if Legal(current, previous, ms[k]) then [ms[k]] else [])
  {
    assert ms[..k + 1][..k] == ms[..k];
  }

  /** The successors produced by trying the moves of `ms` in order. */
  function SlidesOver(b: Board, ms: seq<Move>): (s: seq<(Board, Move)>)
    requires ValidBoard(b)
    ensures |s| <= |ms|
  {
    if ms == [] then []
    else
      var last := ms[|ms| - 1];
      SlidesOver(b, ms[..|ms| - 1]) +
        (match Slide(b, last) case None => [] case Some(b') => [(b', last)])
  }

  /** The successor list of a board: UP, DOWN, LEFT, RIGHT, keeping the legal ones. */
  function Successors(b: Board): seq<(Board, Move)>
    requires ValidBoard(b)
  {
    SlidesOver(b, AllMoves)
  }

  /** The moves of the successors are exactly the legal moves, in order. */
  lemma {:induction false} SlidesOverMoves(b: Board, ms: seq<Move>)
    requires ValidBoard(b)
    ensures |SlidesOver(b, ms)| == |LegalMoves(b.current, b.previous, ms)|
    ensures forall i :: 0 <= i < |SlidesOver(b, ms)| ==> SlidesOver(b, ms)[i].1 == LegalMoves(b.current, b.previous, ms)[i]
    decreases |ms|
  {
    if ms != [] {
      SlidesOverMoves(b, ms[..|ms| - 1]);
    }
  }

  /** Replays a move list from `b`; None as soon as one move is not a legal slide. */
  function Replay(b: Board, path: seq<Move>): (r: Option<Board>)
    requires ValidBoard(b)
    ensures r.Some? ==> ValidBoard(r.value)
    decreases |path|
  {
    if path == [] then Some(b)
    else match Replay(b, path[..|path| - 1])
      case None => None
      case Some(b') => Slide(b', path[|path| - 1])
  }

  /** A node of a search tree rooted at `root`: a non-empty legal path of at most `cap` moves. */
  predicate IsTreePath(root: Board, p: seq<Move>, cap: int)
    requires ValidBoard(root)
  {
    1 <= |p| <= cap && Replay(root, p).Some?
  }

  /** The board `setCurrentPosition(p)` leaves: finger and previous cell both at `p`. */
  function StartBoard(g: Grid, p: Pos): (b: Board)
    requires WellFormed(g) && InBounds(p)
    ensures ValidBoard(b)
  {
    Board(g, p, p)
  }

  // ---------------------------------------------------------------------
  // The slide rule

  /** Each successor swaps exactly the old and the new finger cell, leaves
      every other cell alone and conserves the stone types. */
  lemma SlideSwapsTwoCells(b: Board, m: Move)
    requires ValidBoard(b) && Slide(b, m).Some?
    ensures var b' := Slide(b, m).value;
      && b'.current == Step(b.current, m)
      && b'.previous == b.current
      && b'.current != b.previous
      && InBounds(b'.current)
      && At(b'.grid, b'.current) == At(b.grid, b.current)
      && At(b'.grid, b.current) == At(b.grid, b'.current)
      && (forall p :: InBounds(p) && p != b.current && p != b'.current ==> At(b'.grid, p) == At(b.grid, p))
      && Types(b'.grid) == Types(b.grid)
  {
    var np := Step(b.current, m);
    SwapConservesTypes(b.grid, np, b.current);
  }

  /** A pair is in the successor list exactly when the slide rule produces it. */
  lemma {:induction false} SlidesOverMember(b: Board, ms: seq<Move>, b': Board, m: Move)
    requires ValidBoard(b)
    ensures (b', m) in SlidesOver(b, ms) <==> m in ms && Slide(b, m) == Some(b')
    decreases |ms|
  {
    if ms != [] {
      var init := ms[..|ms| - 1];
      SlidesOverMember(b, init, b', m);
      assert ms == init + [ms[|ms| - 1]];
    }
  }

  /** The successor list holds one entry per legal move, in the order UP, DOWN, LEFT, RIGHT. */
  lemma SuccessorsExact(b: Board)
    requires ValidBoard(b)
    ensures forall b', m :: (b', m) in Successors(b) <==> Slide(b, m) == Some(b')
    ensures forall i, j :: 0 <= i < j < |Successors(b)| ==> MoveRank(Successors(b)[i].1) < MoveRank(Successors(b)[j].1)
  {
    forall b', m ensures (b', m) in Successors(b) <==> Slide(b, m) == Some(b') {
      SlidesOverMember(b, AllMoves, b', m);
    }
    SlidesOverOrdered(b, AllMoves);
  }

  /** Position of a move in the enum's declaration order. */
  function MoveRank(m: Move): int {
    match m
    case Up => 0
    case Down => 1
    case Left => 2
    case Right => 3
  }

  lemma {:induction false} SlidesOverOrdered(b: Board, ms: seq<Move>)
    requires ValidBoard(b)
    requires forall i, j :: 0 <= i < j < |ms| ==> MoveRank(ms[i]) < MoveRank(ms[j])
    ensures forall i, j :: 0 <= i < j < |SlidesOver(b, ms)| ==> MoveRank(SlidesOver(b, ms)[i].1) < MoveRank(SlidesOver(b, ms)[j].1)
    ensures forall i :: 0 <= i < |SlidesOver(b, ms)| ==> SlidesOver(b, ms)[i].1 in ms
    decreases |ms|
  {
    if ms != [] {
      var init := ms[..|ms| - 1];
      SlidesOverOrdered(b, init);
      var s := SlidesOver(b, ms);
      var s0 := SlidesOver(b, init);
      forall i | 0 <= i < |s| ensures s[i].1 in ms {
        if i < |s0| { assert s[i] == s0[i]; }
      }
      forall i, j | 0 <= i < j < |s| ensures MoveRank(s[i].1) < MoveRank(s[j].1) {
        if j >= |s0| {
          assert s[i] == s0[i];
          var k :| 0 <= k < |init| && init[k] == s0[i].1;
          assert ms[k] == init[k];
        }
      }
    }
  }

  /** After setCurrentPosition every in-grid neighbour is a successor, so up to 4 of them. */
  lemma StartBoardSuccessors(g: Grid, p: Pos, m: Move)
    requires WellFormed(g) && InBounds(p)
    ensures Slide(StartBoard(g, p), m).Some? <==> InBounds(Step(p, m))
  {
  }

  /** A board reached by a slide has at most 3 successors: the way back is refused. */
  lemma MovedBoardHasAtMostThree(b: Board, m: Move)
    requires ValidBoard(b) && Slide(b, m).Some?
    ensures |Successors(Slide(b, m).value)| <= 3
  {
    var b' := Slide(b, m).value;
    var back := Opposite(m);
    assert Step(b'.current, back) == b'.previous;
    RefusedMoveShortens(b', AllMoves, back);
  }

  function Opposite(m: Move): Move {
    match m
    case Up => Down
    case Down => Up
    case Left => Right
    case Right => Left
  }

  /** A refused move among the candidates leaves a shorter successor list. */
  lemma {:induction false} RefusedMoveShortens(b: Board, ms: seq<Move>, x: Move)
    requires ValidBoard(b) && x in ms && Slide(b, x).None?
    ensures |SlidesOver(b, ms)| <= |ms| - 1
    decreases |ms|
  {
    var init := ms[..|ms| - 1];
    assert ms == init + [ms[|ms| - 1]];
    if ms[|ms| - 1] != x {
      RefusedMoveShortens(b, init, x);
    }
  }

  // ---------------------------------------------------------------------
  // Replaying paths

  lemma ReplayAppend(b: Board, p: seq<Move>, m: Move)
    requires ValidBoard(b)
    ensures Replay(b, p + [m]) == if Replay(b, p).None? then None else Slide(Replay(b, p).value, m)
  {
    assert (p + [m])[..|p|] == p;
  }

  /** Every prefix of a replayable path is replayable. */
  lemma {:induction false} ReplayPrefix(b: Board, p: seq<Move>, q: seq<Move>)
    requires ValidBoard(b) && q <= p && Replay(b, p).Some?
    ensures Replay(b, q).Some?
    decreases |p|
  {
    if |q| < |p| {
      ReplayPrefix(b, p[..|p| - 1], q);
    } else {
      assert q == p;
    }
  }

  /** Replaying a concatenation replays the second part from where the first ends. */
  lemma {:induction false} ReplayConcat(b: Board, p: seq<Move>, q: seq<Move>)
    requires ValidBoard(b)
    ensures Replay(b, p + q) == if Replay(b, p).None? then None else Replay(Replay(b, p).value, q)
    decreases |q|
  {
    if q == [] {
      assert p + q == p;
    } else {
      var q' := q[..|q| - 1];
      ReplayConcat(b, p, q');
      assert (p + q)[..|p + q| - 1] == p + q';
    }
  }

  /** Every start cell has a legal first move, so every search tree is non-empty. */
  lemma StartHasMove(g: Grid, p: Pos) returns (m: Move)
    requires WellFormed(g) && InBounds(p)
    ensures IsTreePath(StartBoard(g, p), [m], 1)
  {
    m := if p.r + 1 < Rows then Down else Up;
    ReplayAppend(StartBoard(g, p), [], m);
  }
}
