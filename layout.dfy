/**
 * The maze: a Layout parsed from text lines, with its walls, food,
 * capsules, agent starts and ghost count, the corner and wall queries, and
 * the visibility matrix with its module-wide cache.
 */
module Layout {
  import opened Game
  import opened Options
  import opened LayoutText
  import opened Visibility

  /** reduce(str.__add__, lines): the lines joined with no separator. */
  function Concat(lines: Text): string
  {
    if lines == [] then "" else Concat(lines[..|lines| - 1]) + lines[|lines| - 1]
  }

  /** VISIBILITY_MATRIX_CACHE, keyed as in the source by the concatenated lines. */
  class VisibilityCache {
    var entries: map<string, Vis>

    constructor ()
      ensures entries == map[]
    {
      entries := map[];
    }
  }

  /** The same cache keyed by the list of lines itself, which fixes the maze's shape. */
  class LinesCache {
    var entries: map<Text, Vis>

    /** Every cached matrix is the one its own text produces. */
    ghost predicate Consistent()
      reads this
    {
      forall t :: t in entries ==>
        WellFormed(t) && entries[t] == VisSpec(CharGrid(t, '%'), Width(t), Height(t))
    }

    constructor ()
      ensures entries == map[] && Consistent()
    {
      entries := map[];
    }
  }

  /** The four inner corners, in the order the source lists them. */
  function Corners(width: int, height: int): seq<Cell>
  {
    [(1, 1), (1, height - 2), (width - 2, 1), (width - 2, height - 2)]
  }

  /**
   * Python's max(cells, key=distance to pac): the index of the first cell
   * at maximal Manhattan distance.
   */
  function FirstFarthest(cells: seq<Cell>, pac: Cell): (i: nat)
    requires |cells| > 0
    ensures i < |cells|
    ensures forall j :: 0 <= j < |cells| ==> Manhattan(cells[j], pac) <= Manhattan(cells[i], pac)
    ensures forall j :: 0 <= j < i ==> Manhattan(cells[j], pac) < Manhattan(cells[i], pac)
  {
    if |cells| == 1 then 0
    else
      var n := |cells| - 1;
      var i := FirstFarthest(cells[..n], pac);
      if Manhattan(cells[n], pac) > Manhattan(cells[i], pac) then n else i
  }

  /** The parser state after visiting every cell before column x of row y. */
  ghost predicate Parsed(text: Text, x: nat, y: nat, walls: Grid, food: Grid, capsules: seq<Cell>,
                         entries: seq<AgentEntry>, numGhosts: nat)
    requires WellFormed(text) && x <= Width(text) && (y < Height(text) || (y == Height(text) && x == 0))
  {
    ScanOnBoard(text, y, x);
    var done := ScanPrefix(Width(text), y, x);
    && walls == PartialCharGrid(text, '%', x, y)
    && food == PartialCharGrid(text, '.', x, y)
    && capsules == Select(text, done, {'o'})
    && entries == Agents(text, done)
    && numGhosts == |Select(text, done, GhostChars)|
  }

  /** Before the first cell: empty grids, no capsules, no agents, no ghosts. */
  lemma NothingParsed(text: Text, walls: Grid, food: Grid, capsules: seq<Cell>,
                      entries: seq<AgentEntry>, numGhosts: nat)
    requires WellFormed(text)
    requires walls == EmptyGrid(Width(text), Height(text)) && food == EmptyGrid(Width(text), Height(text))
    requires capsules == [] && entries == [] && numGhosts == 0
    ensures Parsed(text, 0, 0, walls, food, capsules, entries, numGhosts)
  {
    PartialGridEmpty(text, '%');
    PartialGridEmpty(text, '.');
  }

  /** Processing the character of cell (x, y) moves the parser state past that cell. */
  lemma CellParsed(text: Text, x: nat, y: nat, walls: Grid, food: Grid, capsules: seq<Cell>,
                   entries: seq<AgentEntry>, numGhosts: nat)
    requires WellFormed(text) && x < Width(text) && y < Height(text)
    requires Parsed(text, x, y, walls, food, capsules, entries, numGhosts)
    ensures var c := CharAt(text, x, y);
      Parsed(text, x + 1, y,
             if c == '%' then walls[x := walls[x][y := true]] else walls,
             if c == '.' then food[x := food[x][y := true]] else food,
             capsules + if c == 'o' then [(x, y)] else [],
             entries + if AgentId(c).Some? then [AgentEntry(AgentId(c).value, (x, y))] else [],
             numGhosts + if c in GhostChars then 1 else 0)
  {
    var done := ScanPrefix(Width(text), y, x);
    ScanOnBoard(text, y, x);
    PartialGridStep(text, '%', x, y);
    PartialGridStep(text, '.', x, y);
    SelectSnoc(text, done, (x, y), {'o'});
    SelectSnoc(text, done, (x, y), GhostChars);
    AgentsSnoc(text, done, (x, y));
    assert ScanPrefix(Width(text), y, x + 1) == done + [(x, y)];
  }

  /** Finishing a row is starting the next one. */
  lemma RowParsed(text: Text, y: nat, walls: Grid, food: Grid, capsules: seq<Cell>,
                  entries: seq<AgentEntry>, numGhosts: nat)
    requires WellFormed(text) && y < Height(text)
    requires Parsed(text, Width(text), y, walls, food, capsules, entries, numGhosts)
    ensures Parsed(text, 0, y + 1, walls, food, capsules, entries, numGhosts)
  {
    assert ScanPrefix(Width(text), y + 1, 0) == ScanPrefix(Width(text), y, Width(text));
    ScanOnBoard(text, y + 1, 0);
    PartialGridRow(text, '%', y);
    PartialGridRow(text, '.', y);
  }

  /** Once every row is parsed, the grids are the character grids of the text. */
  lemma AllParsed(text: Text, walls: Grid, food: Grid, capsules: seq<Cell>,
                  entries: seq<AgentEntry>, numGhosts: nat)
    requires WellFormed(text)
    requires Parsed(text, 0, Height(text), walls, food, capsules, entries, numGhosts)
    ensures walls == CharGrid(text, '%') && food == CharGrid(text, '.')
    ensures OnBoard(text, Scan(text))
    ensures capsules == Select(text, Scan(text), {'o'})
    ensures entries == Agents(text, Scan(text))
    ensures numGhosts == |Select(text, Scan(text), GhostChars)|
  {
    ScanOnBoard(text, Height(text), 0);
    PartialGridFull(text, '%');
    PartialGridFull(text, '.');
  }

  class Layout {
    const width: nat
    const height: nat
    const layoutText: Text
    var walls: Grid
    var food: Grid
    var capsules: seq<Cell>
    /** The (id, position) entries as the parser appends them, before sorting. */
    var agentEntries: seq<AgentEntry>
    /** The sorted (isPacman, position) entries. */
    var agentPositions: seq<(bool, Cell)>
    var numGhosts: nat
    var totalFood: nat
    /** None until initializeVisibilityMatrix has run. */
    var visibility: Option<Vis>

    /** The parsed fields are what the text means. */
    ghost predicate Valid()
      reads this
    {
      && WellFormed(layoutText)
      && width == Width(layoutText) && height == Height(layoutText)
      && walls == CharGrid(layoutText, '%')
      && food == CharGrid(layoutText, '.')
      && OnBoard(layoutText, Scan(layoutText))
      && capsules == Select(layoutText, Scan(layoutText), {'o'})
      && agentEntries == Agents(layoutText, Scan(layoutText))
      && agentPositions == AgentPositions(layoutText)
      && numGhosts == |Select(layoutText, Scan(layoutText), GhostChars)|
      && totalFood == |Select(layoutText, Scan(layoutText), {'.'})|
    }

    constructor (layoutText: Text)
      requires WellFormed(layoutText)
      ensures this.layoutText == layoutText && Valid() && visibility == None
    {
      this.width := |layoutText[0]|;
      this.height := |layoutText|;
      this.walls := EmptyGrid(|layoutText[0]|, |layoutText|);
      this.food := EmptyGrid(|layoutText[0]|, |layoutText|);
      this.capsules := [];
      this.agentEntries := [];
      this.agentPositions := [];
      this.numGhosts := 0;
      this.layoutText := layoutText;
      new;
      NothingParsed(layoutText, walls, food, capsules, agentEntries, numGhosts);
      ProcessLayoutText(layoutText);
      totalFood := CountFood();
      // No visibility matrix until initializeVisibilityMatrix builds one.
      visibility := None;
    }

    /** Records what one character places on cell (x, y) (layout.py:165-186). */
    method ProcessLayoutChar(x: int, y: int, c: char)
      requires IsGrid(walls, width, height) && IsGrid(food, width, height)
      requires InBounds(x, y, width, height)
      modifies this
      ensures walls == if c == '%' then old(walls)[x := old(walls)[x][y := true]] else old(walls)
      ensures food == if c == '.' then old(food)[x := old(food)[x][y := true]] else old(food)
      ensures capsules == old(capsules) + if c == 'o' then [(x, y)] else []
      ensures agentEntries == old(agentEntries)
        + if AgentId(c).Some? then [AgentEntry(AgentId(c).value, (x, y))] else []
      ensures numGhosts == old(numGhosts) + if c in GhostChars then 1 else 0
      ensures agentPositions == old(agentPositions) && totalFood == old(totalFood)
      ensures visibility == old(visibility)
    {
      if c == '%' {
        walls := walls[x := walls[x][y := true]];
      } else if c == '.' {
        food := food[x := food[x][y := true]];
      } else if c == 'o' {
        capsules := capsules + [(x, y)];
      } else if c == 'P' {
        agentEntries := agentEntries + [AgentEntry(0, (x, y))];
      } else if c == 'G' {
        agentEntries := agentEntries + [AgentEntry(1, (x, y))];
        numGhosts := numGhosts + 1;
      } else if c in ['1', '2', '3', '4'] {
        agentEntries := agentEntries + [AgentEntry(c as int - '0' as int, (x, y))];
        numGhosts := numGhosts + 1;
      }
    }

    /**
     * From the fresh fields (empty grids, no capsules, agents or ghosts: the
     * state before the first cell), visits the rows bottom to top (text line
     * height-1-y is row y) and each row left to right, then sorts the agent
     * entries and flags Pacman's.
     */
    method ProcessLayoutText(layoutText: Text)
      requires layoutText == this.layoutText && WellFormed(layoutText)
      requires width == Width(layoutText) && height == Height(layoutText)
      requires Parsed(layoutText, 0, 0, walls, food, capsules, agentEntries, numGhosts)
      modifies this
      ensures walls == CharGrid(layoutText, '%') && food == CharGrid(layoutText, '.')
      ensures OnBoard(layoutText, Scan(layoutText))
      ensures capsules == Select(layoutText, Scan(layoutText), {'o'})
      ensures agentEntries == Agents(layoutText, Scan(layoutText))
      ensures agentPositions == AgentPositions(layoutText)
      ensures numGhosts == |Select(layoutText, Scan(layoutText), GhostChars)|
    {
      ParseRows();
      AllParsed(layoutText, walls, food, capsules, agentEntries, numGhosts);
      agentPositions := Flagged(Sort(agentEntries));
    }

    /** The outer loop of processLayoutText: every row, bottom to top. */
    method ParseRows()
      requires WellFormed(layoutText) && width == Width(layoutText) && height == Height(layoutText)
      requires Parsed(layoutText, 0, 0, walls, food, capsules, agentEntries, numGhosts)
      modifies this
      ensures Parsed(layoutText, 0, height, walls, food, capsules, agentEntries, numGhosts)
    {
      for y := 0 to height
        invariant Parsed(layoutText, 0, y, walls, food, capsules, agentEntries, numGhosts)
      {
        ParseRow(y);
      }
    }

    /** The inner loop of processLayoutText: row y, left to right (text line height-1-y). */
    method ParseRow(y: nat)
      requires WellFormed(layoutText) && width == Width(layoutText) && height == Height(layoutText)
      requires y < height && Parsed(layoutText, 0, y, walls, food, capsules, agentEntries, numGhosts)
      modifies this
      ensures Parsed(layoutText, 0, y + 1, walls, food, capsules, agentEntries, numGhosts)
    {
      var maxY := height - 1;
      for x := 0 to width
        invariant Parsed(layoutText, x, y, walls, food, capsules, agentEntries, numGhosts)
      {
        var c := layoutText[maxY - y][x];
        ParseCell(x, y, c);
      }
      RowParsed(layoutText, y, walls, food, capsules, agentEntries, numGhosts);
    }

    /** One step of the nested loop: cell (x, y) is processed and the scan moves past it. */
    method ParseCell(x: nat, y: nat, c: char)
      requires WellFormed(layoutText) && width == Width(layoutText) && height == Height(layoutText)
      requires x < width && y < height && Parsed(layoutText, x, y, walls, food, capsules, agentEntries, numGhosts)
      requires c == CharAt(layoutText, x, y)
      modifies this
      ensures Parsed(layoutText, x + 1, y, walls, food, capsules, agentEntries, numGhosts)
    {
      CellParsed(layoutText, x, y, walls, food, capsules, agentEntries, numGhosts);
      ProcessLayoutChar(x, y, c);
    }

    /** len(self.food.asList()): the number of food cells. */
    method CountFood() returns (n: nat)
      requires WellFormed(layoutText) && width == Width(layoutText) && height == Height(layoutText)
      requires food == CharGrid(layoutText, '.')
      ensures OnBoard(layoutText, Scan(layoutText))
      ensures n == |Select(layoutText, Scan(layoutText), {'.'})|
    {
      n := 0;
      for y := 0 to height
        invariant OnBoard(layoutText, ScanPrefix(width, y, 0))
        invariant n == |Select(layoutText, ScanPrefix(width, y, 0), {'.'})|
      {
        for x := 0 to width
          invariant OnBoard(layoutText, ScanPrefix(width, y, x))
          invariant n == |Select(layoutText, ScanPrefix(width, y, x), {'.'})|
        {
          SelectSnoc(layoutText, ScanPrefix(width, y, x), (x, y), {'.'});
          if food[x][y] {
            n := n + 1;
          }
        }
      }
    }

    function GetNumGhosts(): (n: nat)
      reads this
      requires Valid()
      ensures n == |Select(layoutText, Scan(layoutText), GhostChars)|
    {
      numGhosts
    }

    /** isWall: the wall bit of an on-board cell, which is set exactly for '%'. */
    function IsWall(x: int, y: int): (r: bool)
      reads this
      requires Valid() && InBounds(x, y, width, height)
      ensures r <==> CharAt(layoutText, x, y) == '%'
    {
      walls[x][y]
    }

    /** getFurthestCorner: the first inner corner at maximal Manhattan distance from Pacman. */
    function GetFurthestCorner(pac: Cell): (r: Cell)
      ensures r in Corners(width, height)
      ensures forall c :: c in Corners(width, height) ==> Manhattan(c, pac) <= Manhattan(r, pac)
      ensures (exists j :: 0 <= j < 4 && Corners(width, height)[j] == r
                && (forall k :: 0 <= k < j ==> Manhattan(Corners(width, height)[k], pac) < Manhattan(r, pac)))
    {
      var i := FirstFarthest(Corners(width, height), pac);
      Corners(width, height)[i]
    }

    /** isVisibleFrom: whether ghostPos is in the visible set of Pacman's (truncated) cell. */
    function IsVisibleFrom(ghostPos: HalfPoint, pacPos: HalfPoint, pacDirection: Direction): (r: bool)
      reads this
      requires Valid() && visibility == Some(VisSpec(walls, width, height))
      requires InBounds(Trunc2(pacPos.0), Trunc2(pacPos.1), width, height)
      ensures r <==> ghostPos in VisibleSet(walls, width, height, Trunc2(pacPos.0), Trunc2(pacPos.1), pacDirection)
    {
      KeysMembers(width, height);
      ghostPos in visibility.value[(Trunc2(pacPos.0), Trunc2(pacPos.1), pacDirection)]
    }

    /**
     * initializeVisibilityMatrix as written: a cached matrix is reused
     * whenever the concatenated lines match, and otherwise the matrix is
     * built and cached.
     */
    method InitializeVisibilityMatrix(cache: VisibilityCache)
      requires Valid()
      modifies this`visibility, cache
      ensures Valid()
      ensures Concat(layoutText) in old(cache.entries) ==>
        visibility == Some(old(cache.entries)[Concat(layoutText)]) && cache.entries == old(cache.entries)
      ensures Concat(layoutText) !in old(cache.entries) ==>
        visibility == Some(VisSpec(walls, width, height))
        && cache.entries == old(cache.entries)[Concat(layoutText) := VisSpec(walls, width, height)]
    {
      var key := Concat(layoutText);
      if key !in cache.entries {
        var vis := BuildVisibility(walls, width, height);
        visibility := Some(vis);
        cache.entries := cache.entries[key := vis];
      } else {
        visibility := Some(cache.entries[key]);
      }
    }

    /**
     * The same method with the cache keyed by the lines themselves: the
     * matrix it leaves is always the one this layout's walls produce.
     */
    method InitializeVisibilityMatrixByLines(cache: LinesCache)
      requires Valid() && cache.Consistent()
      modifies this`visibility, cache
      ensures Valid() && cache.Consistent()
      ensures visibility == Some(VisSpec(walls, width, height))
      ensures cache.entries == old(cache.entries)[layoutText := VisSpec(walls, width, height)]
    {
      var key := layoutText;
      if key !in cache.entries {
        var vis := BuildVisibility(walls, width, height);
        visibility := Some(vis);
        cache.entries := cache.entries[key := vis];
      } else {
        visibility := Some(cache.entries[key]);
      }
    }
  }

  /**
   * Layout(layoutText), including the case where it raises: IndexError on
   * an empty text (layoutText[0]) or when the nested loop reads past the
   * end of a line shorter than the first. Both are None here.
   */
  method NewLayout(layoutText: Text) returns (l: Option<Layout>)
    ensures l.None? <==> !WellFormed(layoutText)
    ensures l.Some? ==>
      fresh(l.value) && l.value.layoutText == layoutText && l.value.Valid() && l.value.visibility == None
  {
    if !WellFormed(layoutText) {
      return None;
    }
    var layout := new Layout(layoutText);
    l := Some(layout);
  }

  /**
   * tryToLoad strips every line, so a file that ends in a blank line gives
   * a trailing "" and Layout raises unless the first line is empty too.
   */
  lemma TrailingBlankLineFails(lines: Text)
    requires |lines| > 0 && |lines[0]| > 0
    ensures !WellFormed(lines + [""])
  {
    var text := lines + [""];
    assert |text[|text| - 1]| < |text[0]|;
  }

  /**
   * Two mazes of different shapes whose lines concatenate to the same
   * string share a cache key, although their visibility matrices differ:
   * the 4x1 maze would be handed the 2x2 maze's matrix, which has no entry
   * for its cells (2, 0) and (3, 0).
   */
  lemma CacheKeyCollision()
    ensures WellFormed(["%%", "%%"]) && WellFormed(["%%%%"])
    ensures Concat(["%%", "%%"]) == Concat(["%%%%"])
    ensures VisSpec(CharGrid(["%%", "%%"], '%'), 2, 2) != VisSpec(CharGrid(["%%%%"], '%'), 4, 1)
  {
    SameConcatenation();
    CellBeyondSquare();
    assert (2, 0, North) !in VisSpec(CharGrid(["%%", "%%"], '%'), 2, 2);
  }

  lemma SameConcatenation()
    ensures Concat(["%%", "%%"]) == "%%%%" == Concat(["%%%%"])
  {
    var a: Text := ["%%", "%%"];
    var b: Text := ["%%%%"];
    assert Concat(a) == Concat(a[..1]) + "%%" == "%%%%";
    assert Concat(b) == Concat(b[..0]) + "%%%%" == "%%%%";
  }

  /** Cell (2, 0) exists in a 4x1 maze and not in a 2x2 one. */
  lemma CellBeyondSquare()
    ensures (2, 0, North) !in Keys(2, 2) && (2, 0, North) in Keys(4, 1)
  {
    KeysMembers(2, 2);
    KeysMembers(4, 1);
  }

  /** The lines determine the maze, so keying by them never reuses another maze's matrix. */
  lemma LinesKeyFaithful(cache: LinesCache, l: Layout)
    requires cache.Consistent() && l.Valid() && l.layoutText in cache.entries
    ensures cache.entries[l.layoutText] == VisSpec(l.walls, l.width, l.height)
  {
  }

  /** Capsules are every 'o' cell, in scan order: rows bottom to top, each left to right. */
  lemma CapsulesInScanOrder(l: Layout)
    requires l.Valid()
    ensures forall c :: c in l.capsules <==> OnText(l.layoutText, c.0, c.1) && CharAt(l.layoutText, c.0, c.1) == 'o'
    ensures forall i, j :: 0 <= i < j < |l.capsules| ==> ScanLess(l.capsules[i], l.capsules[j])
  {
    var text := l.layoutText;
    ScanPrefixMembers(Width(text), Height(text), 0);
    ScanPrefixOrdered(Width(text), Height(text), 0);
    SelectFilters(text, Scan(text), {'o'});
  }

  /** totalFood is the number of '.' cells, and the food grid marks exactly those cells. */
  lemma FoodCounted(l: Layout)
    requires l.Valid()
    ensures forall c :: c in Select(l.layoutText, Scan(l.layoutText), {'.'}) <==>
      OnText(l.layoutText, c.0, c.1) && l.food[c.0][c.1]
    ensures l.totalFood == |Select(l.layoutText, Scan(l.layoutText), {'.'})|
  {
    var text := l.layoutText;
    ScanPrefixMembers(Width(text), Height(text), 0);
    SelectFilters(text, Scan(text), {'.'});
  }

  /** numGhosts counts 'G' and '1'-'4'; with the 'P' cells they make up every agent entry. */
  lemma GhostsCounted(l: Layout)
    requires l.Valid()
    ensures l.numGhosts + |Select(l.layoutText, Scan(l.layoutText), {'P'})| == |l.agentPositions|
    ensures forall i, j :: 0 <= i < j < |l.agentPositions| && l.agentPositions[j].0 ==> l.agentPositions[i].0
  {
    AgentPositionsShape(l.layoutText);
  }
}
