/**
 * What a maze text means, independently of how the parser walks it:
 * the character that lands on each cell, the scan order of the parser
 * (rows bottom to top, cells left to right), and the capsules, agent
 * entries and counts that this order produces.
 */
module LayoutText {
  import opened Game
  import opened Options

  /** The maze as text lines, top line first. */
  type Text = seq<string>

  /**
   * The parser reads text[height-1-y][x] for every x below the length of
   * the first line: it needs one line at least and no line shorter than
   * the first (otherwise Python raises IndexError).
   */
  predicate WellFormed(text: Text)
  {
    |text| > 0 && forall i :: 0 <= i < |text| ==> |text[i]| >= |text[0]|
  }

  function Width(text: Text): nat
    requires |text| > 0
  {
    |text[0]|
  }

  function Height(text: Text): nat
  {
    |text|
  }

  predicate OnText(text: Text, x: int, y: int)
  {
    WellFormed(text) && InBounds(x, y, Width(text), Height(text))
  }

  /** The character of cell (x, y): line height-1-y, column x (rows are flipped). */
  function CharAt(text: Text, x: int, y: int): char
    requires OnText(text, x, y)
  {
    text[|text| - 1 - y][x]
  }

  /** The grid whose cell (x, y) is true exactly when that cell holds c. */
  function CharGrid(text: Text, c: char): (g: Grid)
    requires WellFormed(text)
    ensures IsGrid(g, Width(text), Height(text))
    ensures forall x, y :: InBounds(x, y, Width(text), Height(text)) ==> (g[x][y] <==> CharAt(text, x, y) == c)
  {
    seq(Width(text), x requires 0 <= x < Width(text) =>
      seq(Height(text), y requires 0 <= y < Height(text) => CharAt(text, x, y) == c))
  }

  // ---------------------------------------------------------------
  // Scan order
  // ---------------------------------------------------------------

  /** The scan order: (x, y) comes before (x', y') when its row is lower, or the same row and x < x'. */
  predicate ScanLess(a: Cell, b: Cell)
  {
    a.1 < b.1 || (a.1 == b.1 && a.0 < b.0)
  }

  /** The grid of the cells holding c among those visited before (x, y); the others are false. */
  function PartialCharGrid(text: Text, c: char, x: int, y: int): (g: Grid)
    requires WellFormed(text)
    ensures IsGrid(g, Width(text), Height(text))
  {
    seq(Width(text), i requires 0 <= i < Width(text) =>
      seq(Height(text), j requires 0 <= j < Height(text) => ScanLess((i, j), (x, y)) && CharAt(text, i, j) == c))
  }

  /** Before the first cell nothing is marked. */
  lemma PartialGridEmpty(text: Text, c: char)
    requires WellFormed(text)
    ensures PartialCharGrid(text, c, 0, 0) == EmptyGrid(Width(text), Height(text))
  {
    GridExtensionality(PartialCharGrid(text, c, 0, 0), EmptyGrid(Width(text), Height(text)), Width(text), Height(text));
  }

  /** Visiting cell (x, y) marks it exactly when it holds c. */
  lemma PartialGridStep(text: Text, c: char, x: nat, y: nat)
    requires WellFormed(text) && x < Width(text) && y < Height(text)
    ensures var g := PartialCharGrid(text, c, x, y);
      PartialCharGrid(text, c, x + 1, y) == if CharAt(text, x, y) == c then g[x := g[x][y := true]] else g
  {
    var g := PartialCharGrid(text, c, x, y);
    var h := if CharAt(text, x, y) == c then g[x := g[x][y := true]] else g;
    GridExtensionality(PartialCharGrid(text, c, x + 1, y), h, Width(text), Height(text));
  }

  /** The end of row y is the start of row y + 1. */
  lemma PartialGridRow(text: Text, c: char, y: nat)
    requires WellFormed(text)
    ensures PartialCharGrid(text, c, Width(text), y) == PartialCharGrid(text, c, 0, y + 1)
  {
    GridExtensionality(PartialCharGrid(text, c, Width(text), y), PartialCharGrid(text, c, 0, y + 1),
                       Width(text), Height(text));
  }

  /** After the last row every cell holding c is marked. */
  lemma PartialGridFull(text: Text, c: char)
    requires WellFormed(text)
    ensures PartialCharGrid(text, c, 0, Height(text)) == CharGrid(text, c)
  {
    GridExtensionality(PartialCharGrid(text, c, 0, Height(text)), CharGrid(text, c), Width(text), Height(text));
  }

  /** The cells the parser has visited before reaching column x of row y. */
  function ScanPrefix(width: nat, y: nat, x: nat): seq<Cell>
    requires x <= width
    decreases y, x
  {
    if x > 0 then ScanPrefix(width, y, x - 1) + [(x - 1, y)]
    else if y > 0 then ScanPrefix(width, y - 1, width)
    else []
  }

  /** Every cell of the maze, in the order the parser visits them. */
  function Scan(text: Text): seq<Cell>
    requires WellFormed(text)
  {
    ScanPrefix(Width(text), Height(text), 0)
  }

  predicate OnBoard(text: Text, cells: seq<Cell>)
  {
    WellFormed(text) && forall i :: 0 <= i < |cells| ==> OnText(text, cells[i].0, cells[i].1)
  }

  /** A cell is visited before (x, y) exactly when it is on the board and precedes (x, y). */
  lemma {:induction false} ScanPrefixMembers(width: nat, y: nat, x: nat)
    requires x <= width
    ensures forall c :: c in ScanPrefix(width, y, x) <==>
      (0 <= c.0 < width && 0 <= c.1 && ScanLess(c, (x, y)))
    decreases y, x
  {
    if x > 0 {
      ScanPrefixMembers(width, y, x - 1);
    } else if y > 0 {
      ScanPrefixMembers(width, y - 1, width);
    }
  }

  /** The scan visits cells in strictly increasing scan order. */
  lemma {:induction false} ScanPrefixOrdered(width: nat, y: nat, x: nat)
    requires x <= width
    ensures forall i, j :: 0 <= i < j < |ScanPrefix(width, y, x)| ==>
      ScanLess(ScanPrefix(width, y, x)[i], ScanPrefix(width, y, x)[j])
    decreases y, x
  {
    if x > 0 {
      ScanPrefixOrdered(width, y, x - 1);
      ScanPrefixMembers(width, y, x - 1);
      var s := ScanPrefix(width, y, x - 1);
      assert forall i :: 0 <= i < |s| ==> s[i] in s;
    } else if y > 0 {
      ScanPrefixOrdered(width, y - 1, width);
    }
  }

  /** The whole scan lies on the board (and so does every prefix of it). */
  lemma ScanOnBoard(text: Text, y: nat, x: nat)
    requires WellFormed(text) && x <= Width(text)
    requires y < Height(text) || (y == Height(text) && x == 0)
    ensures OnBoard(text, ScanPrefix(Width(text), y, x))
  {
    ScanPrefixMembers(Width(text), y, x);
    var s := ScanPrefix(Width(text), y, x);
    assert forall i :: 0 <= i < |s| ==> s[i] in s;
  }

  // ---------------------------------------------------------------
  // What the scan collects
  // ---------------------------------------------------------------

  /** The characters that place a ghost: 'G' and the numbered ghosts '1' to '4'. */
  const GhostChars: set<char> := {'G', '1', '2', '3', '4'}

  /** The visited cells whose character is in cs, in visiting order. */
  function Select(text: Text, cells: seq<Cell>, cs: set<char>): seq<Cell>
    requires OnBoard(text, cells)
  {
    if cells == [] then []
    else
      var n := |cells| - 1;
      Select(text, cells[..n], cs)
        + (if CharAt(text, cells[n].0, cells[n].1) in cs then [cells[n]] else [])
  }

  lemma SelectSnoc(text: Text, cells: seq<Cell>, c: Cell, cs: set<char>)
    requires OnBoard(text, cells) && OnText(text, c.0, c.1)
    ensures OnBoard(text, cells + [c])
    ensures Select(text, cells + [c], cs)
      == Select(text, cells, cs) + (if CharAt(text, c.0, c.1) in cs then [c] else [])
  {
    assert (cells + [c])[..|cells|] == cells;
  }

  /** Select keeps exactly the visited cells whose character is in cs. */
  lemma {:induction false} SelectMembers(text: Text, cells: seq<Cell>, cs: set<char>)
    requires OnBoard(text, cells)
    ensures forall c :: c in Select(text, cells, cs) <==>
      (c in cells && OnText(text, c.0, c.1) && CharAt(text, c.0, c.1) in cs)
  {
    if cells != [] {
      var n := |cells| - 1;
      var pre := cells[..n];
      SelectMembers(text, pre, cs);
      assert cells == pre + [cells[n]];
      assert forall c :: c in cells <==> c in pre || c == cells[n];
    }
  }

  /** Select keeps the visited cells in the order they were visited. */
  lemma {:induction false} SelectOrdered(text: Text, cells: seq<Cell>, cs: set<char>)
    requires OnBoard(text, cells)
    requires forall i, j :: 0 <= i < j < |cells| ==> ScanLess(cells[i], cells[j])
    ensures forall i, j :: 0 <= i < j < |Select(text, cells, cs)| ==>
      ScanLess(Select(text, cells, cs)[i], Select(text, cells, cs)[j])
  {
    if cells != [] {
      var n := |cells| - 1;
      var pre := cells[..n];
      SelectOrdered(text, pre, cs);
      SelectMembers(text, pre, cs);
      var s := Select(text, pre, cs);
      forall i | 0 <= i < |s| ensures ScanLess(s[i], cells[n]) {
        assert s[i] in s;
        var k :| 0 <= k < |pre| && pre[k] == s[i];
      }
    }
  }

  /**
   * Select keeps exactly the cells whose character is in cs, and keeps
   * them in the order they were visited.
   */
  lemma SelectFilters(text: Text, cells: seq<Cell>, cs: set<char>)
    requires OnBoard(text, cells)
    ensures forall c :: c in Select(text, cells, cs) <==>
      (c in cells && OnText(text, c.0, c.1) && CharAt(text, c.0, c.1) in cs)
    ensures (forall i, j :: 0 <= i < j < |cells| ==> ScanLess(cells[i], cells[j])) ==>
      (forall i, j :: 0 <= i < j < |Select(text, cells, cs)| ==>
         ScanLess(Select(text, cells, cs)[i], Select(text, cells, cs)[j]))
  {
    SelectMembers(text, cells, cs);
    if forall i, j :: 0 <= i < j < |cells| ==> ScanLess(cells[i], cells[j]) {
      SelectOrdered(text, cells, cs);
    }
  }

  /** The agent id a character places: 0 for Pacman, 1 for 'G', the digit for '1' to '4'. */
  function AgentId(c: char): (id: Option<int>)
    ensures id.Some? <==> c == 'P' || c in GhostChars
    ensures id.Some? ==> 0 <= id.value <= 4 && (id.value == 0 <==> c == 'P')
  {
    if c == 'P' then Some(0)
    else if c == 'G' then Some(1)
    else if c in {'1', '2', '3', '4'} then Some(c as int - '0' as int)
    else None
  }

  /** An agent start as the parser records it: (id, position). */
  datatype AgentEntry = AgentEntry(id: int, pos: Cell)

  /** The agent entries of the visited cells, in visiting order. */
  function Agents(text: Text, cells: seq<Cell>): seq<AgentEntry>
    requires OnBoard(text, cells)
  {
    if cells == [] then []
    else
      var n := |cells| - 1;
      var id := AgentId(CharAt(text, cells[n].0, cells[n].1));
      Agents(text, cells[..n]) + (if id.Some? then [AgentEntry(id.value, cells[n])] else [])
  }

  lemma AgentsSnoc(text: Text, cells: seq<Cell>, c: Cell)
    requires OnBoard(text, cells) && OnText(text, c.0, c.1)
    ensures OnBoard(text, cells + [c])
    ensures Agents(text, cells + [c]) == Agents(text, cells)
      + (var id := AgentId(CharAt(text, c.0, c.1)); if id.Some? then [AgentEntry(id.value, c)] else [])
  {
    assert (cells + [c])[..|cells|] == cells;
  }

  /** There is one agent entry per 'P' and one per ghost character: 'P' places Pacman, not a ghost. */
  lemma {:induction false} AgentsCount(text: Text, cells: seq<Cell>)
    requires OnBoard(text, cells)
    ensures |Agents(text, cells)| == |Select(text, cells, {'P'})| + |Select(text, cells, GhostChars)|
  {
    if cells != [] {
      AgentsCount(text, cells[..|cells| - 1]);
    }
  }

  /** Every entry has an id between 0 and 4, and id 0 exactly for the 'P' cells. */
  lemma {:induction false} AgentsIds(text: Text, cells: seq<Cell>)
    requires OnBoard(text, cells)
    ensures forall e :: e in Agents(text, cells) ==>
      e.pos in cells && 0 <= e.id <= 4 && (e.id == 0 <==> CharAt(text, e.pos.0, e.pos.1) == 'P')
  {
    if cells != [] {
      var n := |cells| - 1;
      AgentsIds(text, cells[..n]);
      assert forall c :: c in cells[..n] ==> c in cells;
    }
  }

  // ---------------------------------------------------------------
  // Sorting the agent entries (Python's list.sort on (id, (x, y)) tuples)
  // ---------------------------------------------------------------

  /** Python's tuple order on (id, (x, y)). */
  predicate EntryLessEq(a: AgentEntry, b: AgentEntry)
  {
    a.id < b.id
    || (a.id == b.id && (a.pos.0 < b.pos.0 || (a.pos.0 == b.pos.0 && a.pos.1 <= b.pos.1)))
  }

  predicate SortedEntries(s: seq<AgentEntry>)
  {
    forall i, j :: 0 <= i < j < |s| ==> EntryLessEq(s[i], s[j])
  }

  /** A sorted list stays sorted with a first element no greater than any of its entries. */
  lemma ConsSorted(x: AgentEntry, tail: seq<AgentEntry>)
    requires SortedEntries(tail)
    requires forall k :: 0 <= k < |tail| ==> EntryLessEq(x, tail[k])
    ensures SortedEntries([x] + tail)
  {
    forall i, j | 0 <= i < j < |[x] + tail| ensures EntryLessEq(([x] + tail)[i], ([x] + tail)[j]) {
      if i > 0 {
        assert ([x] + tail)[i] == tail[i - 1];
      }
      assert ([x] + tail)[j] == tail[j - 1];
    }
  }

  /** A lower bound of rest and of e is a lower bound of any arrangement of them. */
  lemma BoundOfInsertion(x: AgentEntry, e: AgentEntry, rest: seq<AgentEntry>, tail: seq<AgentEntry>)
    requires forall k :: 0 <= k < |rest| ==> EntryLessEq(x, rest[k])
    requires EntryLessEq(x, e)
    requires multiset(tail) == multiset(rest) + multiset{e}
    ensures forall k :: 0 <= k < |tail| ==> EntryLessEq(x, tail[k])
  {
    forall k | 0 <= k < |tail| ensures EntryLessEq(x, tail[k]) {
      assert tail[k] in multiset(tail);
      if tail[k] != e {
        assert tail[k] in multiset(rest);
        var i :| 0 <= i < |rest| && rest[i] == tail[k];
      }
    }
  }

  function Insert(e: AgentEntry, s: seq<AgentEntry>): (r: seq<AgentEntry>)
    requires SortedEntries(s)
    ensures SortedEntries(r)
    ensures multiset(r) == multiset(s) + multiset{e}
  {
    if s == [] then [e]
    else if EntryLessEq(e, s[0]) then [e] + s
    else
      var tail := Insert(e, s[1..]);
      assert s == [s[0]] + s[1..];
      BoundOfInsertion(s[0], e, s[1..], tail);
      ConsSorted(s[0], tail);
      [s[0]] + tail
  }

  /** list.sort(): a sorted permutation of the entries. */
  function Sort(s: seq<AgentEntry>): (r: seq<AgentEntry>)
    ensures SortedEntries(r)
    ensures multiset(r) == multiset(s)
  {
    if s == [] then []
    else
      assert s == [s[0]] + s[1..];
      Insert(s[0], Sort(s[1..]))
  }

  /** The conversion to (isPacman, position): the flag is true exactly for id 0. */
  function Flagged(s: seq<AgentEntry>): (r: seq<(bool, Cell)>)
    ensures |r| == |s|
    ensures forall i :: 0 <= i < |s| ==> r[i] == (s[i].id == 0, s[i].pos)
  {
    seq(|s|, i requires 0 <= i < |s| => (s[i].id == 0, s[i].pos))
  }

  /** The agent positions a parsed layout ends with. */
  function AgentPositions(text: Text): seq<(bool, Cell)>
    requires WellFormed(text)
  {
    ScanOnBoard(text, Height(text), 0);
    Flagged(Sort(Agents(text, Scan(text))))
  }

  /** Sorting keeps the entries and their number. */
  lemma SortKeepsEntries(raw: seq<AgentEntry>)
    ensures |Sort(raw)| == |raw|
    ensures forall e :: e in Sort(raw) <==> e in raw
  {
    var sorted := Sort(raw);
    assert |sorted| == |multiset(sorted)| == |multiset(raw)| == |raw|;
    forall e ensures e in sorted <==> e in raw {
      assert e in sorted <==> e in multiset(sorted);
    }
  }

  /** In a sorted list of entries with non-negative ids, the id-0 entries come first. */
  lemma ZeroIdsFirst(sorted: seq<AgentEntry>)
    requires SortedEntries(sorted)
    requires forall e :: e in sorted ==> 0 <= e.id
    ensures forall i, j :: 0 <= i < j < |sorted| && sorted[j].id == 0 ==> sorted[i].id == 0
  {
    forall i, j | 0 <= i < j < |sorted| && sorted[j].id == 0
      ensures sorted[i].id == 0
    {
      assert sorted[i] in sorted;
      assert EntryLessEq(sorted[i], sorted[j]);
    }
  }

  /**
   * The final agent list has one entry per agent character, is ordered so
   * that every Pacman entry comes before every ghost entry, and its flags
   * mark exactly the 'P' cells.
   */
  lemma AgentPositionsShape(text: Text)
    requires WellFormed(text)
    ensures OnBoard(text, Scan(text))
    ensures |AgentPositions(text)|
      == |Select(text, Scan(text), {'P'})| + |Select(text, Scan(text), GhostChars)|
    ensures forall i, j :: 0 <= i < j < |AgentPositions(text)| && AgentPositions(text)[j].0 ==>
      AgentPositions(text)[i].0
    ensures forall i :: 0 <= i < |AgentPositions(text)| ==>
      var p := AgentPositions(text)[i].1;
      OnText(text, p.0, p.1) && (AgentPositions(text)[i].0 <==> CharAt(text, p.0, p.1) == 'P')
  {
    ScanOnBoard(text, Height(text), 0);
    var cells := Scan(text);
    var raw := Agents(text, cells);
    AgentsCount(text, cells);
    AgentsIds(text, cells);
    ScanPrefixMembers(Width(text), Height(text), 0);
    var sorted := Sort(raw);
    SortKeepsEntries(raw);
    ZeroIdsFirst(sorted);
    forall i | 0 <= i < |sorted|
      ensures OnText(text, sorted[i].pos.0, sorted[i].pos.1)
      ensures sorted[i].id == 0 <==> CharAt(text, sorted[i].pos.0, sorted[i].pos.1) == 'P'
    {
      assert sorted[i] in raw;
    }
  }
}
