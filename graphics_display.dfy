/**
 * The decisions the graphical display takes before it draws anything:
 * where a board cell lands on the screen, which wall pieces a wall cell
 * gets in each of its four quadrants, which team colour a column takes in
 * capture mode, which cells get a food dot, how large the ghost-distance
 * text is, and which image each agent is shown with. The drawing calls
 * themselves are recorded as values.
 */
module GraphicsDisplay {
  import opened Game
  import opened Options

  const DEFAULT_GRID_SIZE: real := 30.0

  /** Where the screen placeholder for an agent without configuration lies. */
  const OFF_SCREEN: real := -1000.0

  // ---------------------------------------------------------------
  // Board lookups and coordinates
  // ---------------------------------------------------------------

  /** isWall: a bounds-checked lookup; every cell off the board is open. */
  function IsWall(x: int, y: int, walls: Grid, width: nat, height: nat): (r: bool)
    requires IsGrid(walls, width, height)
    ensures r ==> InBounds(x, y, width, height)
    ensures InBounds(x, y, width, height) ==> (r <==> walls[x][y])
  {
    if x < 0 || y < 0 then false
    else if x >= width || y >= height then false
    else walls[x][y]
  }

  /** to_screen: one cell of margin on the left, and y flipped so that row 0 is at the bottom. */
  function ToScreen(point: (real, real), height: real, gridSize: real): (screen: (real, real))
  {
    ((point.0 + 1.0) * gridSize, (height - point.1) * gridSize)
  }

  /** The inverse of to_screen for a positive grid size. */
  function FromScreen(screen: (real, real), height: real, gridSize: real): (point: (real, real))
    requires gridSize > 0.0
  {
    (screen.0 / gridSize - 1.0, height - screen.1 / gridSize)
  }

  /** Mapping a point to the screen and back gives the point again. */
  lemma ScreenRoundTrip(point: (real, real), height: real, gridSize: real)
    requires gridSize > 0.0
    ensures FromScreen(ToScreen(point, height, gridSize), height, gridSize) == point
  {
    var screen := ToScreen(point, height, gridSize);
    calc {
      screen.0 / gridSize;
      (point.0 + 1.0) * gridSize / gridSize;
      (point.0 + 1.0) * (gridSize / gridSize);
      { assert gridSize / gridSize == 1.0; }
      (point.0 + 1.0) * 1.0;
      point.0 + 1.0;
    }
    calc {
      screen.1 / gridSize;
      (height - point.1) * gridSize / gridSize;
      (height - point.1) * (gridSize / gridSize);
      { assert gridSize / gridSize == 1.0; }
      (height - point.1) * 1.0;
      height - point.1;
    }
  }

  /** A higher row is drawn higher up, that is at a smaller screen y. */
  lemma ScreenFlipsRows(x: real, y1: real, y2: real, height: real, gridSize: real)
    requires gridSize > 0.0 && y1 < y2
    ensures ToScreen((x, y2), height, gridSize).1 < ToScreen((x, y1), height, gridSize).1
  {
    var a := height - y1;
    var b := height - y2;
    calc {
      a * gridSize - b * gridSize;
      (a - b) * gridSize;
    >
      0.0;
    }
  }

  /** An agent's configuration: its position and the way it faces. */
  datatype Configuration = Configuration(pos: (real, real), direction: Direction)

  /** The part of an agent's state the display reads. */
  datatype AgentState = AgentState(configuration: Option<Configuration>, isPacman: bool, scaredTimer: int)

  /** getPosition: the configured position, or the off-screen placeholder. */
  function GetPosition(agent: AgentState): (pos: (real, real))
    ensures agent.configuration.Some? ==> pos == agent.configuration.value.pos
    ensures agent.configuration.None? ==> pos.0 < 0.0 && pos.1 < 0.0
  {
    if agent.configuration.None? then (OFF_SCREEN, OFF_SCREEN) else agent.configuration.value.pos
  }

  /** getDirection: the configured direction, or STOP. */
  function GetDirection(agent: AgentState): (d: Direction)
    ensures agent.configuration.Some? ==> d == agent.configuration.value.direction
    ensures agent.configuration.None? ==> d == Stop
  {
    if agent.configuration.None? then Stop else agent.configuration.value.direction
  }

  /** An agent without configuration is drawn on no cell of any board, facing STOP. */
  lemma UnplacedAgentOffBoard(agent: AgentState, width: nat, height: nat)
    requires agent.configuration.None?
    ensures forall x: int, y: int :: x as real == GetPosition(agent).0 ==> !InBounds(x, y, width, height)
    ensures GetDirection(agent) == Stop
  {
  }

  // ---------------------------------------------------------------
  // Wall shapes
  // ---------------------------------------------------------------

  /** The pieces drawWalls can draw in one quadrant of a wall cell. */
  datatype Shape =
    | OuterArc        // both orthogonal neighbours open: a rounded corner
    | VerticalLine    // only the vertical neighbour is a wall: an edge along it
    | HorizontalLine  // only the horizontal neighbour is a wall: an edge along it
    | InnerCorner     // both are walls but the diagonal is open: a small arc and two lines

  /**
   * The four independent tests of one quadrant, in source order, given
   * whether its vertical, horizontal and diagonal neighbours are walls.
   */
  function Pieces(vertical: bool, horizontal: bool, diagonal: bool): (s: seq<Shape>)
    ensures |s| <= 1
    ensures s == [] <==> vertical && horizontal && diagonal
  {
    (if !vertical && !horizontal then [OuterArc] else [])
    + (if vertical && !horizontal then [VerticalLine] else [])
    + (if !vertical && horizontal then [HorizontalLine] else [])
    + (if vertical && horizontal && !diagonal then [InnerCorner] else [])
  }

  /** Which single piece a quadrant gets, case by case. */
  lemma PiecesTable(vertical: bool, horizontal: bool, diagonal: bool)
    ensures Pieces(vertical, horizontal, diagonal) == [OuterArc] <==> !vertical && !horizontal
    ensures Pieces(vertical, horizontal, diagonal) == [VerticalLine] <==> vertical && !horizontal
    ensures Pieces(vertical, horizontal, diagonal) == [HorizontalLine] <==> !vertical && horizontal
    ensures Pieces(vertical, horizontal, diagonal) == [InnerCorner] <==> vertical && horizontal && !diagonal
  {
    var s := Pieces(vertical, horizontal, diagonal);
    if !vertical && !horizontal {
      assert s == [OuterArc];
    } else if vertical && !horizontal {
      assert s == [VerticalLine];
    } else if !vertical && horizontal {
      assert s == [HorizontalLine];
    } else if !diagonal {
      assert s == [InnerCorner];
    } else {
      assert s == [];
    }
  }

  /** The colour a column is drawn in: the default one, or team 0 or team 1 in capture mode. */
  datatype Paint = Default | Team(index: nat)

  /** Wall columns: team 0 strictly left of the middle (2x < width). */
  function WallPaint(capture: bool, x: int, width: nat): (p: Paint)
    ensures !capture ==> p == Default
    ensures capture ==> (p == Team(0) <==> 2 * x < width) && (p == Team(1) <==> 2 * x >= width)
  {
    if capture && 2 * x < width then Team(0)
    else if capture && 2 * x >= width then Team(1)
    else Default
  }

  /** Food columns: team 0 up to and including the middle (2x <= width). */
  function FoodPaint(capture: bool, x: int, width: nat): (p: Paint)
    ensures !capture ==> p == Default
    ensures capture ==> (p == Team(0) <==> 2 * x <= width) && (p == Team(1) <==> 2 * x > width)
  {
    if capture && 2 * x <= width then Team(0)
    else if capture && 2 * x > width then Team(1)
    else Default
  }

  /**
   * The two rules agree on every column except the middle one of an even
   * width, whose walls go to team 1 and whose food goes to team 0.
   */
  lemma TeamsSplitAtMiddle(x: int, width: nat)
    ensures WallPaint(true, x, width) != FoodPaint(true, x, width) <==> 2 * x == width
    ensures 2 * x == width ==> WallPaint(true, x, width) == Team(1) && FoodPaint(true, x, width) == Team(0)
  {
  }

  /** What drawWalls draws for one wall cell: its paint and the pieces of its NE, NW, SE and SW quadrants. */
  datatype WallDraw = WallDraw(x: int, y: int, paint: Paint,
                               ne: seq<Shape>, nw: seq<Shape>, se: seq<Shape>, sw: seq<Shape>)

  /** The drawing of the wall cell (x, y) from its eight neighbours. */
  function CellDraw(walls: Grid, width: nat, height: nat, capture: bool, x: int, y: int): (d: WallDraw)
    requires IsGrid(walls, width, height)
    ensures d.x == x && d.y == y && d.paint == WallPaint(capture, x, width)
  {
    var n := IsWall(x, y + 1, walls, width, height);
    var s := IsWall(x, y - 1, walls, width, height);
    var e := IsWall(x + 1, y, walls, width, height);
    var w := IsWall(x - 1, y, walls, width, height);
    WallDraw(x, y, WallPaint(capture, x, width),
             Pieces(n, e, IsWall(x + 1, y + 1, walls, width, height)),
             Pieces(n, w, IsWall(x - 1, y + 1, walls, width, height)),
             Pieces(s, e, IsWall(x + 1, y - 1, walls, width, height)),
             Pieces(s, w, IsWall(x - 1, y - 1, walls, width, height)))
  }

  /** A wall with no wall around it is drawn as four rounded corners. */
  lemma IsolatedWallIsRound(walls: Grid, width: nat, height: nat, capture: bool, x: int, y: int)
    requires IsGrid(walls, width, height)
    requires forall i, j :: x - 1 <= i <= x + 1 && y - 1 <= j <= y + 1 && (i, j) != (x, y)
               ==> !IsWall(i, j, walls, width, height)
    ensures var d := CellDraw(walls, width, height, capture, x, y);
      d.ne == d.nw == d.se == d.sw == [OuterArc]
  {
  }

  /** The drawings of the wall cells of column x with y < upto, bottom to top. */
  function ColumnDraws(walls: Grid, width: nat, height: nat, capture: bool, x: nat, upto: nat): seq<WallDraw>
    requires IsGrid(walls, width, height) && x < width && upto <= height
  {
    if upto == 0 then []
    else
      ColumnDraws(walls, width, height, capture, x, upto - 1)
      + (if walls[x][upto - 1] then [CellDraw(walls, width, height, capture, x, upto - 1)] else [])
  }

  /** The drawings of the wall cells of the columns x < upto, column by column. */
  function WallDraws(walls: Grid, width: nat, height: nat, capture: bool, upto: nat): seq<WallDraw>
    requires IsGrid(walls, width, height) && upto <= width
  {
    if upto == 0 then []
    else WallDraws(walls, width, height, capture, upto - 1) + ColumnDraws(walls, width, height, capture, upto - 1, height)
  }

  lemma {:induction false} ColumnDrawsMembers(walls: Grid, width: nat, height: nat, capture: bool, x: nat, upto: nat)
    requires IsGrid(walls, width, height) && x < width && upto <= height
    ensures forall d :: d in ColumnDraws(walls, width, height, capture, x, upto) <==>
      (d.x == x && 0 <= d.y < upto && walls[x][d.y] && d == CellDraw(walls, width, height, capture, x, d.y))
  {
    if upto > 0 {
      ColumnDrawsMembers(walls, width, height, capture, x, upto - 1);
    }
  }

  /** The drawings are exactly those of the wall cells: one per wall cell and nothing else. */
  lemma {:induction false} WallDrawsMembers(walls: Grid, width: nat, height: nat, capture: bool, upto: nat)
    requires IsGrid(walls, width, height) && upto <= width
    ensures forall d :: d in WallDraws(walls, width, height, capture, upto) <==>
      (0 <= d.x < upto && 0 <= d.y < height && walls[d.x][d.y] && d == CellDraw(walls, width, height, capture, d.x, d.y))
  {
    if upto > 0 {
      WallDrawsMembers(walls, width, height, capture, upto - 1);
      ColumnDrawsMembers(walls, width, height, capture, upto - 1, height);
    }
  }

  /** drawWalls: every wall cell, column by column, with the colour of its column and its quadrant pieces. */
  method DrawWalls(walls: Grid, width: nat, height: nat, capture: bool) returns (drawn: seq<WallDraw>)
    requires IsGrid(walls, width, height)
    ensures drawn == WallDraws(walls, width, height, capture, width)
  {
    drawn := [];
    var wallColor := Default;
    for x := 0 to width
      invariant drawn == WallDraws(walls, width, height, capture, x)
      invariant !capture ==> wallColor == Default
    {
      if capture && x * 2 < width {
        wallColor := Team(0);
      }
      if capture && x * 2 >= width {
        wallColor := Team(1);
      }
      var column := DrawColumn(walls, width, height, capture, x, wallColor);
      drawn := drawn + column;
    }
  }

  /** The inner loop of drawWalls: the wall cells of column x, bottom to top, in the column's colour. */
  method DrawColumn(walls: Grid, width: nat, height: nat, capture: bool, x: nat, wallColor: Paint) returns (column: seq<WallDraw>)
    requires IsGrid(walls, width, height) && x < width
    requires wallColor == WallPaint(capture, x, width)
    ensures column == ColumnDraws(walls, width, height, capture, x, height)
  {
    column := [];
    for y := 0 to height
      invariant column == ColumnDraws(walls, width, height, capture, x, y)
    {
      if walls[x][y] {
        var d := CellDraw(walls, width, height, capture, x, y);
        column := column + [WallDraw(x, y, wallColor, d.ne, d.nw, d.se, d.sw)];
      }
    }
  }

  // ---------------------------------------------------------------
  // Food
  // ---------------------------------------------------------------

  /** drawFood: a matrix of the food grid's shape, a dot of the column's colour where there is food, None elsewhere. */
  method DrawFood(food: Grid, width: nat, height: nat, capture: bool) returns (images: seq<seq<Option<Paint>>>)
    requires IsGrid(food, width, height)
    ensures |images| == width && forall x :: 0 <= x < width ==> |images[x]| == height
    ensures forall x, y :: 0 <= x < width && 0 <= y < height ==>
      images[x][y] == if food[x][y] then Some(FoodPaint(capture, x, width)) else None
  {
    images := [];
    var color := Default;
    for x := 0 to width
      invariant |images| == x && forall i :: 0 <= i < x ==> |images[i]| == height
      invariant forall i, y :: 0 <= i < x && 0 <= y < height ==>
        images[i][y] == if food[i][y] then Some(FoodPaint(capture, i, width)) else None
      invariant !capture ==> color == Default
    {
      if capture && x * 2 <= width {
        color := Team(0);
      }
      if capture && x * 2 > width {
        color := Team(1);
      }
      var imageRow: seq<Option<Paint>> := [];
      for y := 0 to height
        invariant |imageRow| == y
        invariant forall j :: 0 <= j < y ==> imageRow[j] == if food[x][j] then Some(FoodPaint(capture, x, width)) else None
      {
        if food[x][y] {
          imageRow := imageRow + [Some(color)];
        } else {
          imageRow := imageRow + [None];
        }
      }
      images := images + [imageRow];
    }
  }

  // ---------------------------------------------------------------
  // Info pane
  // ---------------------------------------------------------------

  /** The ghost-distance font size: 20, 12 below a pane width of 240, 10 below 160. */
  function GhostDistanceFontSize(paneWidth: real): (size: nat)
    ensures paneWidth >= 240.0 ==> size == 20
    ensures 160.0 <= paneWidth < 240.0 ==> size == 12
    ensures paneWidth < 160.0 ==> size == 10
  {
    var size := 20;
    var size := if paneWidth < 240.0 then 12 else size;
    if paneWidth < 160.0 then 10 else size
  }

  /** A wider pane never gets a smaller font. */
  lemma FontSizeMonotone(w1: real, w2: real)
    requires w1 <= w2
    ensures GhostDistanceFontSize(w1) <= GhostDistanceFontSize(w2)
  {
  }

  /** One ghost-distance text: where it sits, the index of its ghost colour, the text and its size. */
  datatype GhostText = GhostText(pos: (real, real), colorIndex: nat, text: string, size: nat)

  /** The number of GHOST_COLORS. */
  const GHOST_COLOR_COUNT: nat := 6

  class InfoPane {
    const gridSize: real
    const width: real
    const base: real
    var ghostDistanceText: seq<GhostText>

    /** The pane of a layout: as wide as the board, its base one row above the board. */
    constructor (layoutWidth: nat, layoutHeight: nat, gridSize: real)
      ensures this.gridSize == gridSize
      ensures width == layoutWidth as real * gridSize
      ensures base == (layoutHeight + 1) as real * gridSize
      ensures ghostDistanceText == []
    {
      this.gridSize := gridSize;
      width := layoutWidth as real * gridSize;
      base := (layoutHeight + 1) as real * gridSize;
      ghostDistanceText := [];
    }

    /** The pane's toScreen: a one-cell margin on the left, offset by the base. */
    function ToScreen(x: real, y: real): (real, real)
      reads this
    {
      (gridSize + x, base + y)
    }

    /** The text of distance i: at width/2 + width/8 * i, in ghost colour i + 1. */
    function GhostTextAt(i: nat, d: string): GhostText
      reads this
    {
      GhostText(ToScreen(width / 2.0 + width / 8.0 * i as real, 0.0), i + 1, d, GhostDistanceFontSize(width))
    }

    /**
     * initializeGhostDistances: one text per distance, all of the same
     * size. GHOST_COLORS[i + 1] raises IndexError from the sixth
     * distance on: then ok is false and the first five texts stay.
     */
    method InitializeGhostDistances(distances: seq<string>) returns (ok: bool)
      modifies this
      ensures ok <==> |distances| < GHOST_COLOR_COUNT
      ensures |ghostDistanceText| == if ok then |distances| else GHOST_COLOR_COUNT - 1
      ensures forall i :: 0 <= i < |ghostDistanceText| ==> ghostDistanceText[i] == GhostTextAt(i, distances[i])
    {
      ghostDistanceText := [];
      var size := 20;
      if width < 240.0 {
        size := 12;
      }
      if width < 160.0 {
        size := 10;
      }
      var i := 0;
      while i < |distances|
        invariant 0 <= i <= |distances| && i < GHOST_COLOR_COUNT
        invariant |ghostDistanceText| == i
        invariant forall j :: 0 <= j < i ==> ghostDistanceText[j] == GhostTextAt(j, distances[j])
      {
        if i + 1 >= GHOST_COLOR_COUNT {
          return false;
        }
        var t := GhostText(ToScreen(width / 2.0 + width / 8.0 * i as real, 0.0), i + 1, distances[i], size);
        ghostDistanceText := ghostDistanceText + [t];
        i := i + 1;
      }
      ok := true;
    }
  }

  // ---------------------------------------------------------------
  // Agent images
  // ---------------------------------------------------------------

  /** Which image was drawn for an agent: Pacman's or a ghost's, for that agent index. */
  datatype Image = Image(pacman: bool, index: nat)

  class PacmanGraphics {
    const zoom: real
    const gridSize: real
    const capture: bool
    var agentImages: seq<(AgentState, Image)>

    constructor (zoom: real, capture: bool)
      ensures this.zoom == zoom && gridSize == DEFAULT_GRID_SIZE * zoom && this.capture == capture
      ensures agentImages == []
    {
      this.zoom := zoom;
      gridSize := DEFAULT_GRID_SIZE * zoom;
      this.capture := capture;
      agentImages := [];
    }

    /** Every stored image is of the kind (Pacman or ghost) of its stored state, for its own index. */
    ghost predicate ImagesMatch()
      reads this
    {
      forall j :: 0 <= j < |agentImages| ==>
        agentImages[j].1 == Image(agentImages[j].0.isPacman, j)
    }

    /** drawAgentObjects: one (state, image) pair per agent, in index order. */
    method DrawAgentObjects(states: seq<AgentState>)
      modifies this
      ensures agentImages == seq(|states|, j requires 0 <= j < |states| => (states[j], Image(states[j].isPacman, j)))
      ensures ImagesMatch()
    {
      agentImages := [];
      for index := 0 to |states|
        invariant agentImages == seq(index, j requires 0 <= j < index => (states[j], Image(states[j].isPacman, j)))
      {
        var agent := states[index];
        var image := if agent.isPacman then Image(true, index) else Image(false, index);
        agentImages := agentImages + [(agent, image)];
      }
    }

    /**
     * update's bookkeeping for the agent that moved: its image is redrawn
     * when it changed between Pacman and ghost, and its entry then holds
     * the new state. ok is false (nothing changes) when the index is out
     * of range, where the source raises IndexError.
     */
    method Update(states: seq<AgentState>, agentIndex: nat) returns (ok: bool)
      modifies this
      ensures ok <==> agentIndex < |states| && agentIndex < |old(agentImages)|
      ensures !ok ==> agentImages == old(agentImages)
      ensures ok ==> agentImages == old(agentImages)[agentIndex := (states[agentIndex],
        if old(agentImages)[agentIndex].0.isPacman != states[agentIndex].isPacman
        then Image(states[agentIndex].isPacman, agentIndex)
        else old(agentImages)[agentIndex].1)]
    {
      if agentIndex >= |states| || agentIndex >= |agentImages| {
        return false;
      }
      var agentState := states[agentIndex];
      if agentImages[agentIndex].0.isPacman != agentState.isPacman {
        SwapImages(agentIndex, agentState);
      }
      var prevImage := agentImages[agentIndex].1;
      agentImages := agentImages[agentIndex := (agentState, prevImage)];
      ok := true;
    }

    /** swapImages: the agent's image is redrawn as Pacman's or a ghost's, after its new state. */
    method SwapImages(agentIndex: nat, newState: AgentState)
      requires agentIndex < |agentImages|
      modifies this
      ensures agentImages == old(agentImages)[agentIndex := (newState, Image(newState.isPacman, agentIndex))]
    {
      agentImages := agentImages[agentIndex := (newState, Image(newState.isPacman, agentIndex))];
    }
  }

  /** An update keeps every image of the kind of its agent. */
  method UpdateKeepsImagesMatching(g: PacmanGraphics, states: seq<AgentState>, agentIndex: nat)
    requires g.ImagesMatch()
    modifies g
    ensures g.ImagesMatch()
  {
    var ok := g.Update(states, agentIndex);
  }
}
