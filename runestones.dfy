/**
 * Stone types, drag moves, board positions and the 5 x 6 grid of stones
 * (scripts/tos.py: Move, StoneType, TosBoard.runestones, TosBoard._swap).
 */
module Runestones {

  datatype StoneType = Dark | Light | Water | Fire | Earth | Health

  /** The four single-cell drag directions, in the order the enum lists them. */
  datatype Move = Up | Down | Left | Right

  /** A cell as [row, column]; may be out of the grid after adding a delta. */
  datatype Pos = Pos(r: int, c: int)

  const Rows: int := 5
  const Cols: int := 6

  /** Every move in declaration order, as `list(Move)` iterates them. */
  const AllMoves: seq<Move> := [Up, Down, Left, Right]

  function DeltaRow(m: Move): int {
    match m
    case Up => -1
    case Down => 1
    case Left => 0
    case Right => 0
  }

  function DeltaCol(m: Move): int {
    match m
    case Up => 0
    case Down => 0
    case Left => -1
    case Right => 1
  }

  /** The cell reached from `p` by one move (component-wise sum). */
  function Step(p: Pos, m: Move): (q: Pos)
    ensures Adjacent(p, q)
  {
    Pos(p.r + DeltaRow(m), p.c + DeltaCol(m))
  }

  predicate InBounds(p: Pos) {
    0 <= p.r < Rows && 0 <= p.c < Cols
  }

  /** Two cells that share a side. */
  predicate Adjacent(p: Pos, q: Pos) {
    (p.r == q.r && (p.c == q.c + 1 || p.c + 1 == q.c)) ||
    (p.c == q.c && (p.r == q.r + 1 || p.r + 1 == q.r))
  }

  /** Row-major order on cells: the order the source's nested loops visit them. */
  predicate Before(p: Pos, q: Pos) {
    p.r < q.r || (p.r == q.r && p.c < q.c)
  }

  type Grid = seq<seq<StoneType>>

  /** A 5 x 6 grid of cells; generic so that it covers both stones and the empty cells of a new board. */
  predicate WellFormed<T>(g: seq<seq<T>>) {
    |g| == Rows && forall r :: 0 <= r < Rows ==> |g[r]| == Cols
  }

  function At<T>(g: seq<seq<T>>, p: Pos): T
    requires WellFormed(g) && InBounds(p)
  {
    g[p.r][p.c]
  }

  /** The grid with the stones at `a` and `b` exchanged and every other cell kept. */
  function Swapped<T>(g: seq<seq<T>>, a: Pos, b: Pos): (h: seq<seq<T>>)
    requires WellFormed(g) && InBounds(a) && InBounds(b)
    ensures WellFormed(h)
    ensures At(h, a) == At(g, b) && At(h, b) == At(g, a)
    ensures forall p :: InBounds(p) && p != a && p != b ==> At(h, p) == At(g, p)
  {
    seq(Rows, (r: int) requires 0 <= r < Rows =>
      seq(Cols, (c: int) requires 0 <= c < Cols =>
        if Pos(r, c) == a then At(g, b)
        else if Pos(r, c) == b then At(g, a)
        else g[r][c]))
  }

  /** The multiset of stone types on the grid, row by row. */
  function Types(g: seq<seq<StoneType>>): multiset<StoneType> {
    if g == [] then multiset{} else multiset(g[0]) + Types(g[1..])
  }

  lemma {:induction false} TypesUpdate(g: seq<seq<StoneType>>, r: int, row: seq<StoneType>)
    requires 0 <= r < |g|
    ensures Types(g[r := row]) + multiset(g[r]) == Types(g) + multiset(row)
  {
    var h := g[r := row];
    if r > 0 {
      assert h[0] == g[0];
      assert h[1..] == g[1..][r - 1 := row];
      TypesUpdate(g[1..], r - 1, row);
      assert g[1..][r - 1] == g[r];
      assert Types(h) == multiset(g[0]) + Types(g[1..][r - 1 := row]);
      assert Types(g) == multiset(g[0]) + Types(g[1..]);
      forall x ensures (Types(h) + multiset(g[r]))[x] == (Types(g) + multiset(row))[x] {
        assert (Types(g[1..][r - 1 := row]) + multiset(g[r]))[x] == (Types(g[1..]) + multiset(row))[x];
      }
    } else {
      assert h[1..] == g[1..];
      assert Types(h) == multiset(row) + Types(g[1..]);
      assert Types(g) == multiset(g[0]) + Types(g[1..]);
    }
  }

  /** Overwriting one element moves one occurrence in the multiset. */
  lemma MultisetSet<T>(s: seq<T>, i: int, v: T)
    requires 0 <= i < |s|
    ensures multiset(s[i := v]) + multiset{s[i]} == multiset(s) + multiset{v}
  {
    assert s == s[..i] + [s[i]] + s[i + 1..];
    assert s[i := v] == s[..i] + [v] + s[i + 1..];
  }

  /** One cell overwritten: the type leaves the multiset and the new one enters. */
  lemma TypesSet(g: Grid, p: Pos, t: StoneType)
    requires WellFormed(g) && InBounds(p)
    ensures Types(g[p.r := g[p.r][p.c := t]]) + multiset{At(g, p)} == Types(g) + multiset{t}
  {
    var row := g[p.r][p.c := t];
    TypesUpdate(g, p.r, row);
    MultisetSet(g[p.r], p.c, t);
    assert g[p.r][p.c] == At(g, p);
    var h := g[p.r := row];
    forall x ensures (Types(h) + multiset{At(g, p)})[x] == (Types(g) + multiset{t})[x] {
      assert (Types(h) + multiset(g[p.r]))[x] == (Types(g) + multiset(row))[x];
      assert (multiset(row) + multiset{At(g, p)})[x] == (multiset(g[p.r]) + multiset{t})[x];
    }
  }

  /** The comprehension defining Swapped is the two single-cell writes `_swap` performs. */
  lemma SwappedAsWrites<T>(g: seq<seq<T>>, a: Pos, b: Pos)
    requires WellFormed(g) && InBounds(a) && InBounds(b)
    ensures var g1 := g[a.r := g[a.r][a.c := At(g, b)]];
            Swapped(g, a, b) == g1[b.r := g1[b.r][b.c := At(g, a)]]
  {
    var g1 := g[a.r := g[a.r][a.c := At(g, b)]];
    var g2 := g1[b.r := g1[b.r][b.c := At(g, a)]];
    var h := Swapped(g, a, b);
    forall r | 0 <= r < Rows ensures g2[r] == h[r] {
      forall c | 0 <= c < Cols ensures g2[r][c] == h[r][c] {
        assert h[r][c] == At(h, Pos(r, c));
      }
    }
  }

  /** A swap permutes the stones: the multiset of types is conserved. */
  lemma SwapConservesTypes(g: Grid, a: Pos, b: Pos)
    requires WellFormed(g) && InBounds(a) && InBounds(b)
    ensures Types(Swapped(g, a, b)) == Types(g)
  {
    var g1 := g[a.r := g[a.r][a.c := At(g, b)]];
    assert WellFormed(g1);
    TypesSet(g, a, At(g, b));
    assert At(g1, b) == At(g, b) by {
      if a != b { assert a.r != b.r || a.c != b.c; }
    }
    TypesSet(g1, b, At(g, a));
    SwappedAsWrites(g, a, b);
    var g2 := Swapped(g, a, b);
    forall x ensures Types(g2)[x] == Types(g)[x] {
      assert (Types(g1) + multiset{At(g, a)})[x] == (Types(g) + multiset{At(g, b)})[x];
      assert (Types(g2) + multiset{At(g, b)})[x] == (Types(g1) + multiset{At(g, a)})[x];
    }
  }
}
