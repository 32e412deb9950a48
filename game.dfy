/**
 * Minimal semantics of the game collaborators that the core calls but that
 * are not part of this model: the five directions, the width x height grid
 * indexed [x][y], and the Manhattan distance.
 */
module Game {

  /** The five moves of the game. */
  datatype Direction = North | South | East | West | Stop

  /** A board cell (x, y); y grows upwards. */
  type Cell = (int, int)

  /** A grid of booleans stored column by column: g[x][y]. */
  type Grid = seq<seq<bool>>

  /** g is a width x height grid: width columns of height cells each. */
  predicate IsGrid(g: Grid, width: nat, height: nat)
  {
    |g| == width && forall x :: 0 <= x < width ==> |g[x]| == height
  }

  /** The all-false grid of the given shape (game.Grid(width, height, False)). */
  function EmptyGrid(width: nat, height: nat): (g: Grid)
    ensures IsGrid(g, width, height)
    ensures forall x, y :: 0 <= x < width && 0 <= y < height ==> !g[x][y]
  {
    seq(width, _ => seq(height, _ => false))
  }

  /** Two grids of the same shape that agree on every cell are equal. */
  lemma GridExtensionality(a: Grid, b: Grid, width: nat, height: nat)
    requires IsGrid(a, width, height) && IsGrid(b, width, height)
    requires forall x, y :: 0 <= x < width && 0 <= y < height ==> a[x][y] == b[x][y]
    ensures a == b
  {
    forall x | 0 <= x < width ensures a[x] == b[x] {
      assert forall y :: 0 <= y < height ==> a[x][y] == b[x][y];
    }
  }

  /** (x, y) lies on a width x height board. */
  predicate InBounds(x: int, y: int, width: nat, height: nat)
  {
    0 <= x < width && 0 <= y < height
  }

  function Abs(v: int): nat
  {
    if v < 0 then -v else v
  }

  function AbsReal(v: real): real
  {
    if v < 0.0 then -v else v
  }

  /** util.manhattanDistance on integer cells. */
  function Manhattan(a: Cell, b: Cell): nat
  {
    Abs(a.0 - b.0) + Abs(a.1 - b.1)
  }

  /** util.manhattanDistance on (possibly fractional) positions. */
  function ManhattanReal(a: (real, real), b: (real, real)): real
  {
    AbsReal(a.0 - b.0) + AbsReal(a.1 - b.1)
  }

  /** Actions.directionToVector: the unit vector of a direction, scaled by speed. */
  function DirectionToVector(d: Direction, speed: real): (real, real)
  {
    match d
    case North => (0.0, speed)
    case South => (0.0, -speed)
    case East => (speed, 0.0)
    case West => (-speed, 0.0)
    case Stop => (0.0, 0.0)
  }
}
