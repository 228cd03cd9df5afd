/**
 * What `analyze` (scripts/tos.py) computes, stated on board values: the
 * cost of a node of a search tree, what the search from each start cell
 * and each phase of the move search must find, and how the phases chain.
 *
 * Costs are the source's floating-point costs multiplied by 1000: the
 * per-move term `len(moveList) * 0.001` becomes the integer `len(moveList)`,
 * the +100 penalty becomes 100000 and the start value 10e9 becomes 10^13.
 */
module SearchSpec {
  import opened Wrappers
  import opened Runestones
  import opened Slides
  import opened Matching

  /** The number of phases of the second search (`numOfPhases`). */
  const Phases: int := 5

  /** 10e9, the cost nothing starts below, scaled. */
  const Sentinel: int := 10_000_000_000_000

  /** Which scoring a search uses: the start-cell search, or phase `it` (1 to 5) of the move search. */
  datatype CostKind = StartSearch | Phase(it: int)

  /**
   * The cost pushed for a board reached from a parent with `depth` moves:
   * fewer combos, boundary stones and stones cost more; a longer parent
   * costs a thousandth more; a board whose finger cell is removed costs 100
   * more (in every phase but the last).
   */
  function StepCost(kind: CostKind, e: Evaluation, depth: nat): int {
    match kind
    case StartSearch =>
      -1000 * (e.combo * 100 + e.boundary * 50 + e.stones) + depth + (if e.end then 100000 else 0)
    case Phase(it) =>
      -1000 * (e.combo * 100 + e.boundary * 10 * (Phases - it) + e.stones) + depth
        + (if e.end && it != Phases then 100000 else 0)
  }

  /** The cost the best board of phase `it` is given before the next phase starts from it. */
  function Rescore(it: int, e: Evaluation): int {
    -1000 * (e.combo * 100 + e.boundary * 10 * (Phases - 1 - it) + e.stones)
      + (if e.end && it != Phases - 1 then 100000 else 0)
  }

  /** The cost of the tree node reached from `root` by `p`. */
  ghost function PathCost(kind: CostKind, root: Board, p: seq<Move>): int
    requires ValidBoard(root) && |p| >= 1 && Replay(root, p).Some?
  {
    StepCost(kind, EvalSpec(Replay(root, p).value), |p| - 1)
  }

  /** No node of the tree from `root` costs less than c. */
  ghost predicate NoneCheaper(kind: CostKind, root: Board, cap: nat, c: int)
    requires ValidBoard(root)
  {
    forall p :: IsTreePath(root, p, cap) ==> c <= PathCost(kind, root, p)
  }

  /** Every scored board costs less than the start value 10e9. */
  lemma CostBelowSentinel(kind: CostKind, e: Evaluation, depth: nat)
    requires kind.Phase? ==> kind.it <= Phases
    requires depth <= 1000
    ensures StepCost(kind, e, depth) < Sentinel
  {
  }

  /**
   * The rescored best board of phase it costs what it would as a root-level
   * node of phase it + 1. The fact holds by the definitions alone; the lemma
   * documents it, and RunPhase invokes it where it hands this cost on as the
   * next phase's seed: a phase whose tree holds nothing strictly cheaper than
   * its root's own score appends no moves.
   */
  lemma RescoreIsNextPhaseCost(it: int, e: Evaluation)
    ensures Rescore(it, e) == StepCost(Phase(it + 1), e, 0)
  {
  }

  /** Every cell before `k` in row-major order has no tree node cheaper than `c`. */
  ghost predicate SearchedBefore(g: Grid, k: Pos, c: int)
    requires WellFormed(g)
  {
    forall x :: InBounds(x) && Before(x, k) ==> NoneCheaper(StartSearch, StartBoard(g, x), 5, c)
  }

  /** `best` reaches `c` with `bestPath`, and every cell before it stays above `c`. */
  ghost predicate FirstBest(g: Grid, best: Pos, bestPath: seq<Move>, c: int)
    requires WellFormed(g)
  {
    && InBounds(best)
    && IsTreePath(StartBoard(g, best), bestPath, 5)
    && PathCost(StartSearch, StartBoard(g, best), bestPath) == c
    && SearchedBefore(g, best, c + 1)
  }

  /** The cost a phase's root entry is pushed with: 10e9 for the first phase, the rescored best board after that. */
  ghost function PhaseRootCost(it: int, root: Board): int
    requires ValidBoard(root)
  {
    if it == 1 then Sentinel else Rescore(it - 1, EvalSpec(root))
  }

  /**
   * What phase `it` from `root` yields: no moves when no node of its tree
   * beats the root's cost, otherwise a node of the tree that beats it and
   * that no node undercuts.
   */
  ghost predicate PhaseResult(it: int, root: Board, rootCost: int, moves: seq<Move>)
    requires ValidBoard(root)
  {
    if moves == [] then NoneCheaper(Phase(it), root, 10, rootCost)
    else
      && IsTreePath(root, moves, 10)
      && PathCost(Phase(it), root, moves) < rootCost
      && NoneCheaper(Phase(it), root, 10, PathCost(Phase(it), root, moves))
  }

  /** The move lists of the phases, joined in order. */
  function Flatten(phases: seq<seq<Move>>): seq<Move> {
    if phases == [] then [] else Flatten(phases[..|phases| - 1]) + phases[|phases| - 1]
  }

  /** Phase `it` from `root` yields `moves`, which lead to `next`. */
  ghost predicate PhaseStep(it: int, root: Board, moves: seq<Move>, next: Board) {
    && ValidBoard(root)
    && PhaseResult(it, root, PhaseRootCost(it, root), moves)
    && Replay(root, moves) == Some(next)
  }

  /**
   * The phases run so far: phase k + 1 starts from `boards[k]` and its moves
   * lead to `boards[k + 1]`; `boards[0]` is the start of the first phase and
   * the last entry the board the last phase ended on.
   */
  ghost predicate PhaseChain(boards: seq<Board>, phases: seq<seq<Move>>)
    decreases |phases|
  {
    && |boards| == |phases| + 1
    && (phases != [] ==>
      && PhaseChain(boards[..|phases|], phases[..|phases| - 1])
      && PhaseStep(|phases|, boards[|phases| - 1], phases[|phases| - 1], boards[|phases|]))
  }
}
