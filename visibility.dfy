/**
 * The visibility relation of a maze: from every open cell, a ray in each
 * of four directions that advances in half-cell steps and records every
 * point it passes until it leaves the board or enters a wall.
 *
 * Points on the half-step lattice are written in doubled coordinates:
 * the pair (X, Y) stands for the position (X/2, Y/2).
 */
module Visibility {
  import opened Game

  /** (X, Y) stands for the position (X / 2, Y / 2). */
  type HalfPoint = (int, int)

  /** Python's int(X / 2): truncation toward zero, so that int(-0.5) == 0. */
  function Trunc2(v: int): (r: int)
    ensures 2 * r <= v + 1 && v - 1 <= 2 * r
    ensures v >= 0 ==> 0 <= 2 * r <= v < 2 * r + 2
    ensures v < 0 ==> 2 * r - 2 < v <= 2 * r <= 0
  {
    if v >= 0 then v / 2 else -((-v) / 2)
  }

  /** The cell a point truncates to. */
  function CellOf(p: HalfPoint): Cell
  {
    (Trunc2(p.0), Trunc2(p.1))
  }

  /** A ray stops at a point that truncates outside the board or onto a wall. */
  predicate Blocked(walls: Grid, width: nat, height: nat, p: HalfPoint)
    requires IsGrid(walls, width, height)
  {
    var c := CellOf(p);
    !InBounds(c.0, c.1, width, height) || walls[c.0][c.1]
  }

  /** The four directions the rays are cast in, with their half steps (layout.py:53-55). */
  const RayDirections: seq<Direction> := [North, South, West, East]

  /**
   * The half step of a ray direction. As in the source, the x offsets
   * -0.5 and +0.5 are filed under North and South, and the y offsets
   * under West and East.
   */
  function RayStep(d: Direction): HalfPoint
  {
    match d
    case North => (-1, 0)
    case South => (1, 0)
    case West => (0, -1)
    case East => (0, 1)
    case Stop => (0, 0)
  }

  predicate IsStep(s: HalfPoint)
  {
    s in {(-1, 0), (1, 0), (0, -1), (0, 1)}
  }

  /** How far a ray from p may still travel before it must leave the board. */
  function RayMeasure(width: nat, height: nat, p: HalfPoint, s: HalfPoint): int
  {
    if s == (1, 0) then 2 * width - p.0
    else if s == (-1, 0) then p.0 + 2
    else if s == (0, 1) then 2 * height - p.1
    else p.1 + 2
  }

  function Advance(p: HalfPoint, s: HalfPoint): HalfPoint
  {
    (p.0 + s.0, p.1 + s.1)
  }

  /** The points a ray records from p on, stepping by s, up to the first blocked point. */
  function Ray(walls: Grid, width: nat, height: nat, p: HalfPoint, s: HalfPoint): seq<HalfPoint>
    requires IsGrid(walls, width, height) && IsStep(s)
    decreases RayMeasure(width, height, p, s)
  {
    if Blocked(walls, width, height, p) then []
    else [p] + Ray(walls, width, height, Advance(p, s), s)
  }

  /** A ray from an open point records it and goes on from the next one. */
  lemma RayStepOn(walls: Grid, width: nat, height: nat, start: HalfPoint, s: HalfPoint,
                  prefix: seq<HalfPoint>, p: HalfPoint)
    requires IsGrid(walls, width, height) && IsStep(s)
    requires Ray(walls, width, height, start, s) == prefix + Ray(walls, width, height, p, s)
    requires InBounds(Trunc2(p.0), Trunc2(p.1), width, height) && !walls[Trunc2(p.0)][Trunc2(p.1)]
    ensures Ray(walls, width, height, start, s) == (prefix + [p]) + Ray(walls, width, height, Advance(p, s), s)
  {
    var rest := Ray(walls, width, height, Advance(p, s), s);
    assert Ray(walls, width, height, p, s) == [p] + rest;
    assert prefix + ([p] + rest) == (prefix + [p]) + rest;
  }

  /** Once a ray reaches a blocked point, the points gathered so far are the whole ray. */
  lemma RayFinished(walls: Grid, width: nat, height: nat, start: HalfPoint, s: HalfPoint,
                    prefix: seq<HalfPoint>, p: HalfPoint, pts: set<HalfPoint>)
    requires IsGrid(walls, width, height) && IsStep(s)
    requires Ray(walls, width, height, start, s) == prefix + Ray(walls, width, height, p, s)
    requires !InBounds(Trunc2(p.0), Trunc2(p.1), width, height) || walls[Trunc2(p.0)][Trunc2(p.1)]
    requires forall q :: q in pts <==> q in prefix
    ensures pts == set i | 0 <= i < |Ray(walls, width, height, start, s)| :: Ray(walls, width, height, start, s)[i]
  {
    var r := Ray(walls, width, height, start, s);
    assert Ray(walls, width, height, p, s) == [];
    assert r == prefix;
    forall q | q in pts ensures exists i :: 0 <= i < |r| && r[i] == q {
      var i :| 0 <= i < |prefix| && prefix[i] == q;
    }
  }

  /** The point i steps of s away from p. */
  function Shift(p: HalfPoint, s: HalfPoint, i: int): HalfPoint
    requires IsStep(s)
  {
    if s == (1, 0) then (p.0 + i, p.1)
    else if s == (-1, 0) then (p.0 - i, p.1)
    else if s == (0, 1) then (p.0, p.1 + i)
    else (p.0, p.1 - i)
  }

  /**
   * A ray records p, p+s, p+2s, ... in order, every recorded point truncates
   * to an open cell of the board, and the point just after the last recorded
   * one is blocked: the ray stops at the first point outside the board or in
   * a wall.
   */
  lemma {:induction false} RayShape(walls: Grid, width: nat, height: nat, p: HalfPoint, s: HalfPoint)
    requires IsGrid(walls, width, height) && IsStep(s)
    ensures forall i :: 0 <= i < |Ray(walls, width, height, p, s)| ==>
      Ray(walls, width, height, p, s)[i] == Shift(p, s, i) && !Blocked(walls, width, height, Shift(p, s, i))
    ensures Blocked(walls, width, height, Shift(p, s, |Ray(walls, width, height, p, s)|))
    decreases RayMeasure(width, height, p, s)
  {
    var r := Ray(walls, width, height, p, s);
    if Blocked(walls, width, height, p) {
      assert Shift(p, s, 0) == p;
    } else {
      var q := Advance(p, s);
      RayShape(walls, width, height, q, s);
      var rest := Ray(walls, width, height, q, s);
      assert r == [p] + rest;
      assert Shift(p, s, 0) == p;
      forall i | 1 <= i < |r|
        ensures r[i] == Shift(p, s, i)
      {
        assert r[i] == rest[i - 1];
        ShiftOfAdvance(p, s, i - 1);
      }
      ShiftOfAdvance(p, s, |rest|);
    }
  }

  /** i steps from the next point are i + 1 steps from p. */
  lemma ShiftOfAdvance(p: HalfPoint, s: HalfPoint, i: int)
    requires IsStep(s)
    ensures Shift(Advance(p, s), s, i) == Shift(p, s, i + 1)
  {
  }

  /** The points visible from cell (x, y) in direction d. */
  function VisibleSet(walls: Grid, width: nat, height: nat, x: int, y: int, d: Direction): set<HalfPoint>
    requires IsGrid(walls, width, height) && InBounds(x, y, width, height)
  {
    if walls[x][y] || d == Stop then {}
    else
      var s := RayStep(d);
      var r := Ray(walls, width, height, (2 * x + s.0, 2 * y + s.1), s);
      set i | 0 <= i < |r| :: r[i]
  }

  /**
   * A ray in a positive direction (South or East) starts inside its own
   * cell, so from an open cell it always records its first half step.
   */
  lemma FirstHalfStepVisible(walls: Grid, width: nat, height: nat, x: int, y: int, d: Direction)
    requires IsGrid(walls, width, height) && InBounds(x, y, width, height)
    requires !walls[x][y] && d in {South, East}
    ensures (2 * x + RayStep(d).0, 2 * y + RayStep(d).1) in VisibleSet(walls, width, height, x, y, d)
  {
    var s := RayStep(d);
    var p := (2 * x + s.0, 2 * y + s.1);
    assert CellOf(p) == (x, y);
    var r := Ray(walls, width, height, p, s);
    assert !Blocked(walls, width, height, p);
    assert r[0] == p;
  }

  /**
   * A ray in a negative direction starts in the neighbouring cell, except
   * on the board's edge: from an open cell of column 0 the North ray
   * records (-0.5, y), because int(-0.5) is 0, and from an open cell of
   * row 0 the West ray records (x, -0.5).
   */
  lemma EdgePointsVisible(walls: Grid, width: nat, height: nat, x: int, y: int)
    requires IsGrid(walls, width, height) && InBounds(x, y, width, height) && !walls[x][y]
    ensures x == 0 ==> (-1, 2 * y) in VisibleSet(walls, width, height, x, y, North)
    ensures y == 0 ==> (2 * x, -1) in VisibleSet(walls, width, height, x, y, West)
    ensures x > 0 ==> CellOf((2 * x - 1, 2 * y)) == (x - 1, y)
  {
    if x == 0 {
      var p := (-1, 2 * y);
      assert CellOf(p) == (0, y);
      assert Ray(walls, width, height, p, RayStep(North))[0] == p;
    }
    if y == 0 {
      var p := (2 * x, -1);
      assert CellOf(p) == (x, 0);
      assert Ray(walls, width, height, p, RayStep(West))[0] == p;
    }
  }

  /** Every cell and direction of the matrix, STOP included. */
  const AllDirections: set<Direction> := {North, South, East, West, Stop}

  /** The visibility matrix: (x, y, direction) to the visible points. */
  type Vis = map<(int, int, Direction), set<HalfPoint>>

  function Keys(width: nat, height: nat): set<(int, int, Direction)>
  {
    set x, y, d | 0 <= x < width && 0 <= y < height && d in AllDirections :: (x, y, d)
  }

  lemma KeysMembers(width: nat, height: nat)
    ensures forall k :: k in Keys(width, height) <==> InBounds(k.0, k.1, width, height)
  {
    forall k: (int, int, Direction) | InBounds(k.0, k.1, width, height) ensures k in Keys(width, height) {
      assert k.2.North? || k.2.South? || k.2.East? || k.2.West? || k.2.Stop?;
      assert k.2 in AllDirections;
      assert k == (k.0, k.1, k.2);
    }
  }

  /** The visibility matrix the source builds from a wall grid. */
  function VisSpec(walls: Grid, width: nat, height: nat): (v: Vis)
    requires IsGrid(walls, width, height)
    ensures v.Keys == Keys(width, height)
  {
    map k | k in Keys(width, height) :: VisibleSet(walls, width, height, k.0, k.1, k.2)
  }

  /**
   * Casts one ray from the open cell (x, y) as the source's inner while
   * loop does, adding each point that truncates to an open cell until the
   * first one that does not.
   */
  method CastRay(walls: Grid, width: nat, height: nat, x: int, y: int, d: Direction)
    returns (pts: set<HalfPoint>)
    requires IsGrid(walls, width, height) && InBounds(x, y, width, height)
    requires !walls[x][y] && d != Stop
    ensures pts == VisibleSet(walls, width, height, x, y, d)
  {
    var s := RayStep(d);
    var start := (2 * x + s.0, 2 * y + s.1);
    var next := start;
    pts := {};
    ghost var prefix: seq<HalfPoint> := [];
    assert prefix + Ray(walls, width, height, next, s) == Ray(walls, width, height, start, s);
    while true
      invariant Ray(walls, width, height, start, s) == prefix + Ray(walls, width, height, next, s)
      invariant forall q :: q in pts <==> q in prefix
      decreases RayMeasure(width, height, next, s)
    {
      var ix, iy := Trunc2(next.0), Trunc2(next.1);
      if ix < 0 || iy < 0 || ix >= width || iy >= height {
        break;
      }
      if walls[ix][iy] {
        break;
      }
      RayStepOn(walls, width, height, start, s, prefix, next);
      pts := pts + {next};
      prefix := prefix + [next];
      next := Advance(next, s);
    }
    RayFinished(walls, width, height, start, s, prefix, next, pts);
  }

  /** The cells before (x, y) in the build order: columns left to right, each bottom to top. */
  predicate Before(k: (int, int, Direction), x: int, y: int)
  {
    k.0 < x || (k.0 == x && k.1 < y)
  }

  /** vis holds every key, the finished rays for the cells before (x, y), and nothing elsewhere. */
  ghost predicate FilledUpTo(vis: Vis, walls: Grid, width: nat, height: nat, x: int, y: int)
    requires IsGrid(walls, width, height)
  {
    && (forall k :: k in vis <==> InBounds(k.0, k.1, width, height))
    && (forall k :: k in vis ==>
         vis[k] == if Before(k, x, y) then VisibleSet(walls, width, height, k.0, k.1, k.2) else {})
  }

  /** The rays of one cell: none for a wall, four for an open cell (layout.py:69-84). */
  method FillCell(vis: Vis, walls: Grid, width: nat, height: nat, x: int, y: int) returns (vis': Vis)
    requires IsGrid(walls, width, height) && InBounds(x, y, width, height)
    requires FilledUpTo(vis, walls, width, height, x, y)
    ensures FilledUpTo(vis', walls, width, height, x, y + 1)
  {
    vis' := vis;
    if !walls[x][y] {
      assert RayDirections[..0] == [];
      for j := 0 to |RayDirections|
        invariant FilledWithin(vis', walls, width, height, x, y, RayDirections[..j])
      {
        var direction := RayDirections[j];
        var pts := CastRay(walls, width, height, x, y, direction);
        RayFilled(vis', walls, width, height, x, y, RayDirections[..j], direction, pts);
        assert RayDirections[..j + 1] == RayDirections[..j] + [direction];
        vis' := vis'[(x, y, direction) := pts];
      }
      assert RayDirections[..|RayDirections|] == RayDirections;
      OpenCellFilled(vis', walls, width, height, x, y);
    } else {
      WallCellFilled(vis', walls, width, height, x, y);
    }
  }

  /** The matrix with the cells before (x, y) filled, and the rays of (x, y) in ds. */
  ghost predicate FilledWithin(vis: Vis, walls: Grid, width: nat, height: nat, x: int, y: int, ds: seq<Direction>)
    requires IsGrid(walls, width, height)
  {
    && (forall k :: k in vis <==> InBounds(k.0, k.1, width, height))
    && (forall k :: k in vis ==>
         vis[k] == if Before(k, x, y) || (k.0 == x && k.1 == y && k.2 in ds)
           then VisibleSet(walls, width, height, k.0, k.1, k.2) else {})
  }

  /** Storing the ray of (x, y) in direction d adds d to the rays filled for that cell. */
  lemma RayFilled(vis: Vis, walls: Grid, width: nat, height: nat, x: int, y: int,
                  ds: seq<Direction>, d: Direction, pts: set<HalfPoint>)
    requires IsGrid(walls, width, height) && InBounds(x, y, width, height)
    requires FilledWithin(vis, walls, width, height, x, y, ds)
    requires pts == VisibleSet(walls, width, height, x, y, d)
    ensures FilledWithin(vis[(x, y, d) := pts], walls, width, height, x, y, ds + [d])
  {
  }

  /** An open cell with its four rays stored is done: its Stop entry stays empty. */
  lemma OpenCellFilled(vis: Vis, walls: Grid, width: nat, height: nat, x: int, y: int)
    requires IsGrid(walls, width, height) && InBounds(x, y, width, height)
    requires FilledWithin(vis, walls, width, height, x, y, RayDirections)
    ensures FilledUpTo(vis, walls, width, height, x, y + 1)
  {
    forall k | k in vis
      ensures vis[k] == if Before(k, x, y + 1) then VisibleSet(walls, width, height, k.0, k.1, k.2) else {}
    {
      if k.0 == x && k.1 == y && k.2 == Stop {
        assert VisibleSet(walls, width, height, k.0, k.1, k.2) == {};
      }
    }
  }

  /** A wall cell casts no ray: every entry of it stays empty. */
  lemma WallCellFilled(vis: Vis, walls: Grid, width: nat, height: nat, x: int, y: int)
    requires IsGrid(walls, width, height) && InBounds(x, y, width, height) && walls[x][y]
    requires FilledUpTo(vis, walls, width, height, x, y)
    ensures FilledUpTo(vis, walls, width, height, x, y + 1)
  {
    forall k | k in vis
      ensures vis[k] == if Before(k, x, y + 1) then VisibleSet(walls, width, height, k.0, k.1, k.2) else {}
    {
      if k.0 == x && k.1 == y {
        assert VisibleSet(walls, width, height, k.0, k.1, k.2) == {};
      }
    }
  }

  /** The empty matrix has every key and no points: nothing is filled yet. */
  lemma FilledAtStart(walls: Grid, width: nat, height: nat)
    requires IsGrid(walls, width, height)
    ensures FilledUpTo(map k | k in Keys(width, height) :: {}, walls, width, height, 0, 0)
  {
    KeysMembers(width, height);
  }

  /** Finishing column x is starting column x + 1. */
  lemma FilledNextColumn(vis: Vis, walls: Grid, width: nat, height: nat, x: int)
    requires IsGrid(walls, width, height)
    requires FilledUpTo(vis, walls, width, height, x, height)
    ensures FilledUpTo(vis, walls, width, height, x + 1, 0)
  {
    forall k | k in vis
      ensures Before(k, x, height) <==> Before(k, x + 1, 0)
    {
      assert InBounds(k.0, k.1, width, height);
    }
  }

  /** Once every column is filled, the matrix is the specified one. */
  lemma FilledAll(vis: Vis, walls: Grid, width: nat, height: nat)
    requires IsGrid(walls, width, height)
    requires FilledUpTo(vis, walls, width, height, width, 0)
    ensures vis == VisSpec(walls, width, height)
  {
    KeysMembers(width, height);
    var spec := VisSpec(walls, width, height);
    assert vis.Keys == spec.Keys;
    forall k | k in vis
      ensures vis[k] == spec[k]
    {
      assert Before(k, width, 0);
    }
  }

  /**
   * Builds the whole visibility matrix: every key starts with no points,
   * and every open cell gets its four rays (layout.py:57-84).
   */
  method BuildVisibility(walls: Grid, width: nat, height: nat) returns (vis: Vis)
    requires IsGrid(walls, width, height)
    ensures vis == VisSpec(walls, width, height)
  {
    vis := map k | k in Keys(width, height) :: {};
    FilledAtStart(walls, width, height);
    for x := 0 to width
      invariant FilledUpTo(vis, walls, width, height, x, 0)
    {
      for y := 0 to height
        invariant FilledUpTo(vis, walls, width, height, x, y)
      {
        vis := FillCell(vis, walls, width, height, x, y);
      }
      FilledNextColumn(vis, walls, width, height, x);
    }
    FilledAll(vis, walls, width, height);
  }
}
