/**
 * The TosBoard class of scripts/tos.py: a 5 x 6 grid of runestone cells
 * (empty until filled), the dragged cell and the cell it came from.
 */
module TosBoards {
  import opened Wrappers
  import opened Runestones
  import opened Slides
  import opened Matching
  import opened Scan
  import opened BoardFile

  /** initFromFile's failure: a six-token line past the last row indexes a row that does not exist. */
  datatype LoadError = RowIndexOutOfRange(lineIdx: nat)

  /** The cells of a board: a stone's type, or None for a cell never filled. */
  type Cells = seq<seq<Option<StoneType>>>

  ghost predicate AllFilled(cells: Cells)
    requires WellFormed(cells)
  {
    forall p :: InBounds(p) ==> At(cells, p).Some?
  }

  /** The stone types of a filled grid of cells. */
  function Unwrap(cells: Cells): (g: Grid)
    requires WellFormed(cells) && AllFilled(cells)
    ensures WellFormed(g)
    ensures forall p :: InBounds(p) ==> At(cells, p) == Some(At(g, p))
  {
    seq(Rows, (r: int) requires 0 <= r < Rows =>
      seq(Cols, (c: int) requires 0 <= c < Cols => At(cells, Pos(r, c)).value))
  }

  /** The cells holding the stones of a grid. */
  function Wrap(g: Grid): (cells: Cells)
    requires WellFormed(g)
    ensures WellFormed(cells) && AllFilled(cells)
    ensures forall p :: InBounds(p) ==> At(cells, p) == Some(At(g, p))
  {
    seq(Rows, (r: int) requires 0 <= r < Rows =>
      seq(Cols, (c: int) requires 0 <= c < Cols => Some(At(g, Pos(r, c)))))
  }

  lemma GridExt(g: Grid, h: Grid)
    requires WellFormed(g) && WellFormed(h)
    requires forall p :: InBounds(p) ==> At(g, p) == At(h, p)
    ensures g == h
  {
    forall r | 0 <= r < Rows ensures g[r] == h[r] {
      forall c | 0 <= c < Cols ensures g[r][c] == h[r][c] {
        assert At(g, Pos(r, c)) == At(h, Pos(r, c));
      }
    }
  }

  /** Wrapping and unwrapping are inverse. */
  lemma UnwrapWrap(g: Grid)
    requires WellFormed(g)
    ensures Unwrap(Wrap(g)) == g
  {
    GridExt(Unwrap(Wrap(g)), g);
  }

  /** Swapping two filled cells swaps the two stones. */
  lemma UnwrapSwapped(cells: Cells, a: Pos, b: Pos)
    requires WellFormed(cells) && AllFilled(cells) && InBounds(a) && InBounds(b)
    ensures AllFilled(Swapped(cells, a, b))
    ensures Unwrap(Swapped(cells, a, b)) == Swapped(Unwrap(cells), a, b)
  {
    GridExt(Unwrap(Swapped(cells, a, b)), Swapped(Unwrap(cells), a, b));
  }

  /** Loading one more line changes at most the row of that line's index. */
  lemma LoadedStep(cells: Cells, lines: seq<string>, k: int)
    requires WellFormed(cells) && 0 <= k < |lines|
    ensures LoadedCells(cells, lines[..k + 1]) ==
      if k < Rows && IsRowLine(lines[k]) then LoadedCells(cells, lines[..k])[k := RowOf(lines[k])]
      else LoadedCells(cells, lines[..k])
  {
    var pre, post := lines[..k], lines[..k + 1];
    assert |post| == k + 1 && post[k] == lines[k];
    forall r | 0 <= r < Rows && r != k ensures LoadedCells(cells, post)[r] == LoadedCells(cells, pre)[r] {
      if r < k {
        assert post[r] == pre[r];
      }
    }
  }

  /** Lines past the last row never change the cells. */
  lemma LoadedPrefix(cells: Cells, lines: seq<string>, k: int)
    requires WellFormed(cells) && Rows <= k <= |lines|
    requires forall j :: Rows <= j < k ==> !IsRowLine(lines[j])
    requires k < |lines| ==> IsRowLine(lines[k])
    ensures LoadedCells(cells, lines[..k]) == LoadedCells(cells, lines)
    ensures Overflow(lines, 0) == if k < |lines| then Some(k) else None
  {
  }

  class TosBoard {
    var runestones: Cells
    var currentPosition: Pos
    var previousPosition: Pos

    predicate Valid()
      reads this
    {
      WellFormed(runestones) && InBounds(currentPosition) && InBounds(previousPosition)
    }

    /** Every cell holds a stone. */
    ghost predicate Filled()
      requires Valid()
      reads this
    {
      AllFilled(runestones)
    }

    /** The board's state as a value. */
    function Value(): Board
      requires Valid() && Filled()
      reads this
    {
      Board(Unwrap(runestones), currentPosition, previousPosition)
    }

    /** A new board: every cell empty, the finger at [0, 0] with no other previous cell. */
    constructor ()
      ensures Valid()
      ensures forall p :: InBounds(p) ==> At(runestones, p) == None
      ensures currentPosition == Pos(0, 0) && previousPosition == Pos(0, 0)
    {
      runestones := seq(Rows, (r: int) => seq(Cols, (c: int) => None));
      currentPosition := Pos(0, 0);
      previousPosition := currentPosition;
    }

    /** Exchanges the cells at `a` and `b`, through a temporary, as `_swap` does. */
    method Swap(a: Pos, b: Pos)
      requires Valid() && InBounds(a) && InBounds(b)
      modifies this
      ensures Valid()
      ensures runestones == Swapped(old(runestones), a, b)
      ensures currentPosition == old(currentPosition) && previousPosition == old(previousPosition)
    {
      var swapTmp := runestones[a.r][a.c];
      runestones := runestones[a.r := runestones[a.r][a.c := runestones[b.r][b.c]]];
      runestones := runestones[b.r := runestones[b.r][b.c := swapTmp]];
      SwappedAsWrites(old(runestones), a, b);
    }

    /**
     * Reads a board file given as its lines. Each line with exactly six
     * tokens overwrites the row of the same index, token by token (an
     * unknown letter empties its cell); other lines are skipped but still
     * counted. A six-token line at index 5 or later raises, leaving the rows
     * already written in place.
     */
    method InitFromFile(lines: seq<string>) returns (r: Result<(), LoadError>)
      requires Valid()
      modifies this
      ensures Valid()
      ensures currentPosition == old(currentPosition) && previousPosition == old(previousPosition)
      ensures runestones == LoadedCells(old(runestones), lines)
      ensures r == match Overflow(lines, 0) case None => Ok(()) case Some(i) => Err(RowIndexOutOfRange(i))
    {
      var lineIdx := 0;
      while lineIdx < |lines|
        invariant 0 <= lineIdx <= |lines|
        invariant Valid()
        invariant currentPosition == old(currentPosition) && previousPosition == old(previousPosition)
        invariant runestones == LoadedCells(old(runestones), lines[..lineIdx])
        invariant forall j :: Rows <= j < lineIdx ==> !IsRowLine(lines[j])
      {
        var tokenList := Tokens(lines[lineIdx]);
        if |tokenList| != Cols {
          assert !IsRowLine(lines[lineIdx]);
          LoadedStep(old(runestones), lines, lineIdx);
          lineIdx := lineIdx + 1;
          continue;
        }
        if lineIdx >= Rows {
          LoadedPrefix(old(runestones), lines, lineIdx);
          return Err(RowIndexOutOfRange(lineIdx));
        }
        WriteRow(lineIdx, tokenList);
        LoadedStep(old(runestones), lines, lineIdx);
        lineIdx := lineIdx + 1;
      }
      assert lines[..|lines|] == lines;
      return Ok(());
    }

    /** Writes the stones a six-token line names into row `lineIdx`, one cell per token. */
    method WriteRow(lineIdx: int, tokenList: seq<string>)
      requires Valid() && 0 <= lineIdx < Rows && |tokenList| == Cols
      modifies this
      ensures Valid()
      ensures currentPosition == old(currentPosition) && previousPosition == old(previousPosition)
      ensures runestones == old(runestones)[lineIdx := StonesOf(tokenList)]
    {
      var tokenIdx := 0;
      while tokenIdx < |tokenList|
        invariant 0 <= tokenIdx <= Cols
        invariant Valid()
        invariant currentPosition == old(currentPosition) && previousPosition == old(previousPosition)
        invariant forall row :: 0 <= row < Rows && row != lineIdx ==> runestones[row] == old(runestones)[row]
        invariant forall i :: 0 <= i < tokenIdx ==> runestones[lineIdx][i] == TokenStone(tokenList[i])
      {
        var stone := TokenStone(tokenList[tokenIdx]);
        runestones := runestones[lineIdx := runestones[lineIdx][tokenIdx := stone]];
        tokenIdx := tokenIdx + 1;
      }
      assert runestones[lineIdx] == StonesOf(tokenList);
    }

    /**
     * Puts the finger on `p`. The source stores `p` as the current cell and
     * then copies the new current cell into the previous one, so both end at `p`
     * and no slide is refused on the first move.
     */
    method SetCurrentPosition(p: Pos)
      requires Valid() && InBounds(p)
      requires At(runestones, currentPosition).Some? && At(runestones, p).Some?
      modifies this
      ensures Valid()
      ensures currentPosition == p && previousPosition == p
      ensures runestones == old(runestones)
    {
      currentPosition := p;
      previousPosition := currentPosition;
    }

    /**
     * The boards one slide away, tried UP, DOWN, LEFT, RIGHT: a move is
     * skipped when it returns to the previous cell or leaves the grid; each
     * kept move gives a new board with the two stones exchanged.
     */
    method GetSuccessorList() returns (succ: seq<(TosBoard, Move)>)
      requires Valid()
      ensures |succ| == |LegalMoves(currentPosition, previousPosition, AllMoves)|
      ensures forall i :: 0 <= i < |succ| ==>
        && fresh(succ[i].0) && succ[i].0.Valid()
        && succ[i].1 == LegalMoves(currentPosition, previousPosition, AllMoves)[i]
        && succ[i].0.currentPosition == Step(currentPosition, succ[i].1)
        && succ[i].0.previousPosition == currentPosition
        && succ[i].0.runestones == Swapped(runestones, Step(currentPosition, succ[i].1), currentPosition)
      ensures Filled() ==> |succ| == |Successors(Value())|
      ensures Filled() ==> forall i :: 0 <= i < |succ| ==>
        succ[i].0.Filled() && (succ[i].0.Value(), succ[i].1) == Successors(Value())[i]
    {
      succ := [];
      for k := 0 to |AllMoves|
        invariant |succ| == |LegalMoves(currentPosition, previousPosition, AllMoves[..k])|
        invariant forall i :: 0 <= i < |succ| ==>
          && fresh(succ[i].0) && succ[i].0.Valid()
          && succ[i].1 == LegalMoves(currentPosition, previousPosition, AllMoves[..k])[i]
          && succ[i].0.currentPosition == Step(currentPosition, succ[i].1)
          && succ[i].0.previousPosition == currentPosition
          && succ[i].0.runestones == Swapped(runestones, Step(currentPosition, succ[i].1), currentPosition)
      {
        var move := AllMoves[k];
        LegalMovesStep(currentPosition, previousPosition, AllMoves, k);
        var newPosition := Step(currentPosition, move);
        if newPosition == previousPosition {
          continue;
        }
        if InBounds(newPosition) {
          var newBoard := SlidTo(newPosition);
          succ := succ + [(newBoard, move)];
        }
      }
      assert AllMoves[..|AllMoves|] == AllMoves;
      if Filled() {
        SuccessorValues(succ);
      }
    }

    /**
     * Scores the board: marks every run of three, notes whether the finger's
     * cell is marked, counts the marked cells and marked corners, and counts
     * the combos by flood-filling the marks.
     */
    method Evaluate() returns (e: Evaluation)
      requires Valid() && Filled()
      ensures e == EvalSpec(Value())
      ensures 3 * e.combo <= e.stones && e.boundary <= 4 && e.boundary <= e.stones
      ensures e.combo == 0 <==> e.stones == 0
    {
      var g := Unwrap(runestones);
      var removed := MarkRuns(g);
      var end := removed[currentPosition.r, currentPosition.c] != None;
      var stones := CountMarked(removed, g);
      var boundary := CountCorners(removed, g);
      var combo := CountCombos(removed, g);
      e := Evaluation(stones, boundary, combo, end);
      BoundaryBounds(g);
      ComboZeroIffNoStones(g);
    }

    /** A new board with this board's stones, the finger moved to `np` and the two stones exchanged. */
    method SlidTo(np: Pos) returns (newBoard: TosBoard)
      requires Valid() && InBounds(np)
      ensures fresh(newBoard) && newBoard.Valid()
      ensures newBoard.currentPosition == np && newBoard.previousPosition == currentPosition
      ensures newBoard.runestones == Swapped(runestones, np, currentPosition)
    {
      newBoard := new TosBoard();
      newBoard.runestones := runestones;
      newBoard.currentPosition := np;
      newBoard.previousPosition := currentPosition;
      newBoard.Swap(np, currentPosition);
    }

    /** The successor boards described cell by cell are the successors of Value(). */
    lemma SuccessorValues(succ: seq<(TosBoard, Move)>)
      requires Valid() && Filled()
      requires |succ| == |LegalMoves(currentPosition, previousPosition, AllMoves)|
      requires forall i :: 0 <= i < |succ| ==>
        && succ[i].0.Valid()
        && succ[i].1 == LegalMoves(currentPosition, previousPosition, AllMoves)[i]
        && succ[i].0.currentPosition == Step(currentPosition, succ[i].1)
        && succ[i].0.previousPosition == currentPosition
        && succ[i].0.runestones == Swapped(runestones, Step(currentPosition, succ[i].1), currentPosition)
      ensures |succ| == |Successors(Value())|
      ensures forall i :: 0 <= i < |succ| ==>
        succ[i].0.Filled() && (succ[i].0.Value(), succ[i].1) == Successors(Value())[i]
    {
      var v := Value();
      SlidesOverMoves(v, AllMoves);
      SuccessorsExact(v);
      forall i | 0 <= i < |succ|
        ensures succ[i].0.Filled() && (succ[i].0.Value(), succ[i].1) == Successors(v)[i]
      {
        var m := succ[i].1;
        var np := Step(currentPosition, m);
        UnwrapSwapped(runestones, np, currentPosition);
        assert Successors(v)[i] in Successors(v);
        assert Slide(v, m) == Some(Successors(v)[i].0);
      }
    }
  }
}
