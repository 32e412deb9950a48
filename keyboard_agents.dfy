/**
 * Keyboard control of an agent: the pressed keys are mapped to a move
 * with a fixed precedence, a STOP result falls back to the last move, the
 * stop key forces STOP, and an illegal result is replaced by a picked legal
 * action.
 */
module KeyboardAgents {
  import opened Game
  import opened Options

  /** KeyboardAgent (letters a/d/w/s/q plus the arrow keys) or KeyboardAgent2 (j/l/i/k/u only). */
  datatype Variant = Primary | Secondary

  function WestKey(v: Variant): string
  {
    if v.Primary? then "a" else "j"
  }

  function EastKey(v: Variant): string
  {
    if v.Primary? then "d" else "l"
  }

  function NorthKey(v: Variant): string
  {
    if v.Primary? then "w" else "i"
  }

  function SouthKey(v: Variant): string
  {
    if v.Primary? then "s" else "k"
  }

  function StopKey(v: Variant): string
  {
    if v.Primary? then "q" else "u"
  }

  /** The arrow key that also asks for a direction, on the primary agent only. */
  function ArrowKey(d: Direction): string
  {
    match d
    case West => "Left"
    case East => "Right"
    case North => "Up"
    case South => "Down"
    case Stop => ""
  }

  function LetterKey(v: Variant, d: Direction): string
  {
    match d
    case West => WestKey(v)
    case East => EastKey(v)
    case North => NorthKey(v)
    case South => SouthKey(v)
    case Stop => StopKey(v)
  }

  /** The keys ask for direction d (d is one of the four moves). */
  predicate Wants(v: Variant, keys: seq<string>, d: Direction)
  {
    d != Stop && (LetterKey(v, d) in keys || (v.Primary? && ArrowKey(d) in keys))
  }

  /** d is asked for and legal, so getMove may take it. */
  predicate Eligible(v: Variant, keys: seq<string>, legal: seq<Direction>, d: Direction)
  {
    Wants(v, keys, d) && d in legal
  }

  /**
   * getMove: starting from STOP, the checks for West, East, North and South
   * each overwrite the move when their key is down and the direction is
   * legal. So the last eligible check wins: South over North over East over
   * West, and STOP when none is eligible.
   */
  function GetMove(v: Variant, keys: seq<string>, legal: seq<Direction>): (move: Direction)
    ensures move == Stop || move in legal
    ensures move == South <==> Eligible(v, keys, legal, South)
    ensures move == North <==> Eligible(v, keys, legal, North) && !Eligible(v, keys, legal, South)
    ensures move == East <==> (Eligible(v, keys, legal, East)
                               && !Eligible(v, keys, legal, North) && !Eligible(v, keys, legal, South))
    ensures move == West <==> (Eligible(v, keys, legal, West) && !Eligible(v, keys, legal, East)
                               && !Eligible(v, keys, legal, North) && !Eligible(v, keys, legal, South))
  {
    var m0 := Stop;
    var m1 := if Eligible(v, keys, legal, West) then West else m0;
    var m2 := if Eligible(v, keys, legal, East) then East else m1;
    var m3 := if Eligible(v, keys, legal, North) then North else m2;
    if Eligible(v, keys, legal, South) then South else m3
  }

  /** getMove depends only on which of the variant's move keys are down. */
  lemma GetMoveDependsOnMoveKeys(v: Variant, keys1: seq<string>, keys2: seq<string>, legal: seq<Direction>)
    requires forall d: Direction :: Wants(v, keys1, d) <==> Wants(v, keys2, d)
    ensures GetMove(v, keys1, legal) == GetMove(v, keys2, legal)
  {
    assert Eligible(v, keys1, legal, South) == Eligible(v, keys2, legal, South);
    assert Eligible(v, keys1, legal, North) == Eligible(v, keys2, legal, North);
    assert Eligible(v, keys1, legal, East) == Eligible(v, keys2, legal, East);
    assert Eligible(v, keys1, legal, West) == Eligible(v, keys2, legal, West);
  }

  /**
   * The arrow keys move the primary agent and are ignored by the secondary
   * one: with only arrows down, the secondary agent's move is STOP.
   */
  lemma ArrowsOnlyForPrimary(keys: seq<string>, legal: seq<Direction>)
    requires forall k :: k in keys ==> k in {"Left", "Right", "Up", "Down"}
    ensures GetMove(Secondary, keys, legal) == Stop
    ensures "Left" in keys && West in legal && (forall d :: d != West ==> ArrowKey(d) !in keys) ==>
      GetMove(Primary, keys, legal) == West
  {
    assert !Wants(Secondary, keys, West) && "j" !in keys;
    assert !Wants(Secondary, keys, East) && "l" !in keys;
    assert !Wants(Secondary, keys, North) && "i" !in keys;
    assert !Wants(Secondary, keys, South) && "k" !in keys;
  }

  /**
   * The move getAction returns: getMove, replaced by the last move when it
   * is STOP and the last move is legal, replaced by STOP when the stop key
   * is down and STOP is legal, and replaced by the picked legal action when
   * still illegal.
   */
  function ChooseMove(v: Variant, keys: seq<string>, lastMove: Direction, legal: seq<Direction>, pick: nat): (m: Direction)
    requires pick < |legal|
    ensures m in legal
    ensures StopKey(v) in keys && Stop in legal ==> m == Stop
    ensures !(StopKey(v) in keys && Stop in legal) && GetMove(v, keys, legal) != Stop ==>
      m == GetMove(v, keys, legal)
    ensures !(StopKey(v) in keys && Stop in legal) && GetMove(v, keys, legal) == Stop ==>
      m == (if lastMove in legal then lastMove else if Stop in legal then Stop else legal[pick])
  {
    var move := GetMove(v, keys, legal);
    var move := if move == Stop && lastMove in legal then lastMove else move;
    var move := if StopKey(v) in keys && Stop in legal then Stop else move;
    if move in legal then move else legal[pick]
  }

  /** Holding no key keeps the agent going the way it went, whenever that is still legal. */
  lemma KeepsGoing(v: Variant, lastMove: Direction, legal: seq<Direction>, pick: nat)
    requires pick < |legal| && lastMove in legal
    ensures ChooseMove(v, [], lastMove, legal, pick) == lastMove
  {
    assert GetMove(v, [], legal) == Stop;
  }

  class KeyboardAgent {
    const variant: Variant
    const index: int
    var lastMove: Direction
    var keys: seq<string>

    constructor (variant: Variant, index: int)
      ensures this.variant == variant && this.index == index
      ensures lastMove == Stop && keys == []
    {
      this.variant := variant;
      this.index := index;
      lastMove := Stop;
      keys := [];
    }

    /**
     * getAction. `incoming` is keys_waiting() + keys_pressed() and `pick`
     * is the index random.choice would draw. With no legal action
     * random.choice raises, after the keys were stored: None.
     */
    method GetAction(incoming: seq<string>, legal: seq<Direction>, pick: nat) returns (r: Option<Direction>)
      requires legal != [] ==> pick < |legal|
      modifies this
      ensures keys == if incoming != [] then incoming else old(keys)
      ensures legal == [] ==> r == None && lastMove == old(lastMove)
      ensures legal != [] ==> (r == Some(lastMove)
                                 && lastMove == ChooseMove(variant, keys, old(lastMove), legal, pick))
    {
      if incoming != [] {
        keys := incoming;
      }
      var move := GetMove(variant, keys, legal);
      if move == Stop && lastMove in legal {
        move := lastMove;
      }
      if StopKey(variant) in keys && Stop in legal {
        move := Stop;
      }
      if move !in legal {
        if legal == [] {
          return None;
        }
        move := legal[pick];
      }
      lastMove := move;
      r := Some(move);
    }
  }
}
