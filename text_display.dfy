/**
 * The text display's bookkeeping: an agent counter that cycles through the
 * agents, a turn counter bumped on every full round, and the rule that
 * decides when the board is drawn. Printing and sleeping are recorded only
 * as a count of draws.
 */
module TextDisplay {
  import opened Options

  /** DRAW_EVERY: the board is redrawn every this many turns. */
  const DRAW_EVERY: nat := 1

  /** The module-wide settings the constructor may overwrite (SLEEP_TIME). */
  class Settings {
    var sleepTime: real

    constructor ()
      ensures sleepTime == 0.0
    {
      sleepTime := 0.0;
    }
  }

  /** The two counters of PacmanGraphics. */
  datatype Counters = Counters(turn: int, agentCounter: int)

  /**
   * One update: the agent counter advances modulo the number of agents and
   * the turn grows by one exactly when the counter wraps to 0.
   */
  function Step(s: Counters, numAgents: nat): (t: Counters)
    requires numAgents > 0 && s.agentCounter >= 0
    ensures 0 <= t.agentCounter < numAgents
    ensures t.agentCounter == 0 ==> t.turn == s.turn + 1
    ensures t.agentCounter != 0 ==> t.turn == s.turn
    ensures s.agentCounter < numAgents ==>
      (t.agentCounter == if s.agentCounter + 1 == numAgents then 0 else s.agentCounter + 1)
  {
    var c := (s.agentCounter + 1) % numAgents;
    Counters(if c == 0 then s.turn + 1 else s.turn, c)
  }

  /** `steps` updates in a row with the same number of agents. */
  function Run(s: Counters, numAgents: nat, steps: nat): (t: Counters)
    requires numAgents > 0 && s.agentCounter >= 0
    ensures t.agentCounter >= 0
    decreases steps
  {
    if steps == 0 then s else Run(Step(s, numAgents), numAgents, steps - 1)
  }

  lemma {:induction false} RunAdditive(s: Counters, numAgents: nat, a: nat, b: nat)
    requires numAgents > 0 && s.agentCounter >= 0
    ensures Run(s, numAgents, a + b) == Run(Run(s, numAgents, a), numAgents, b)
    decreases a
  {
    if a > 0 {
      RunAdditive(Step(s, numAgents), numAgents, a - 1, b);
    }
  }

  /** From counter c, numAgents - c updates finish the round: the next turn, counter 0. */
  lemma {:induction false} FinishRound(turn: int, c: nat, numAgents: nat)
    requires c < numAgents
    ensures Run(Counters(turn, c), numAgents, numAgents - c) == Counters(turn + 1, 0)
    decreases numAgents - c
  {
    if c + 1 < numAgents {
      assert Step(Counters(turn, c), numAgents) == Counters(turn, c + 1);
      FinishRound(turn, c + 1, numAgents);
    }
  }

  /** After initialize, k rounds of numAgents updates leave turn == k and the counter at 0. */
  lemma {:induction false} RoundsFromStart(numAgents: nat, k: nat)
    requires numAgents > 0
    ensures Run(Counters(0, 0), numAgents, k * numAgents) == Counters(k, 0)
  {
    if k > 0 {
      RoundsFromStart(numAgents, k - 1);
      RunAdditive(Counters(0, 0), numAgents, (k - 1) * numAgents, numAgents);
      FinishRound(k - 1, 0, numAgents);
      assert k * numAgents == (k - 1) * numAgents + numAgents;
    }
  }

  /**
   * How many times one update draws the board: once on a wrap whose turn
   * is a multiple of DRAW_EVERY, and once more when the game is won or lost.
   */
  function DrawsOf(wrapped: bool, turn: int, win: bool, lose: bool): (n: nat)
    ensures n <= 2
    ensures (win || lose) ==> n >= 1
    ensures !wrapped ==> (n == 1 <==> win || lose) && n <= 1
  {
    (if wrapped && turn % DRAW_EVERY == 0 then 1 else 0) + (if win || lose then 1 else 0)
  }

  /** With DRAW_EVERY = 1 every wrap draws the board. */
  lemma EveryWrapDraws(turn: int, win: bool, lose: bool)
    ensures DrawsOf(true, turn, win, lose) == (if win || lose then 2 else 1)
  {
  }

  class PacmanGraphics {
    var turn: int
    var agentCounter: nat
    /** How many times the board has been drawn (printed). */
    var draws: nat

    /** The constructor writes SLEEP_TIME only when a speed is given. */
    constructor (settings: Settings, speed: Option<real>)
      modifies settings
      ensures settings.sleepTime == if speed.Some? then speed.value else old(settings.sleepTime)
      ensures turn == 0 && agentCounter == 0 && draws == 0
    {
      if speed.Some? {
        settings.sleepTime := speed.value;
      }
      turn := 0;
      agentCounter := 0;
      draws := 0;
    }

    /** initialize draws the board once and resets both counters. */
    method Initialize()
      modifies this
      ensures turn == 0 && agentCounter == 0 && draws == old(draws) + 1
    {
      draws := draws + 1;
      turn := 0;
      agentCounter := 0;
    }

    /**
     * update. With no agents, `% numAgents` raises ZeroDivisionError before
     * anything changes: the result is false and the state stays as it was.
     */
    method Update(numAgents: nat, win: bool, lose: bool) returns (ok: bool)
      modifies this
      ensures ok <==> numAgents > 0
      ensures !ok ==> turn == old(turn) && agentCounter == old(agentCounter) && draws == old(draws)
      ensures ok ==> (Counters(turn, agentCounter) == Step(Counters(old(turn), old(agentCounter)), numAgents)
                      && draws == old(draws) + DrawsOf(agentCounter == 0, turn, win, lose))
    {
      if numAgents == 0 {
        return false;
      }
      agentCounter := (agentCounter + 1) % numAgents;
      if agentCounter == 0 {
        turn := turn + 1;
        if turn % DRAW_EVERY == 0 {
          draws := draws + 1;
        }
      }
      if win || lose {
        draws := draws + 1;
      }
      ok := true;
    }
  }

  /** NullGraphics: every display operation leaves the display as it was. */
  class NullGraphics {
    constructor ()
    {
    }

    method Initialize()
    {
    }

    method Update()
    {
    }

    method CheckNullDisplay() returns (r: bool)
      ensures r
    {
      r := true;
    }
  }
}
